/** Chunked transfer coding as the servers' HTTP library writes and reads it
    (httplib.h; section 7.1 of RFC 9112). */
module ChunkedCoding {
  import opened Text

  const MAX_LINE_LENGTH := 32768
  const MAX_TRAILER_LENGTH := 8192
  const MAX_TRAILER_COUNT := 100
  const ULONG_MAX := 0xFFFF_FFFF_FFFF_FFFF

  // ----- hexadecimal -----

  predicate IsHex(c: char) {
    IsDigit(c) || 'a' <= c <= 'f' || 'A' <= c <= 'F'
  }

  function HexDigitValue(c: char): (d: nat)
    requires IsHex(c)
    ensures d < 16
  {
    if IsDigit(c) then c as int - '0' as int
    else if c >= 'a' then c as int - 'a' as int + 10
    else c as int - 'A' as int + 10
  }

  function HexChar(d: nat): (c: char)
    requires d < 16
    ensures IsHex(c) && HexDigitValue(c) == d && !('A' <= c <= 'F')
  {
    if d < 10 then ('0' as int + d) as char else ('a' as int + (d - 10)) as char
  }

  predicate AllHex(s: string) {
    forall i :: 0 <= i < |s| ==> IsHex(s[i])
  }

  function Hex(n: nat): (s: string)
    ensures s != "" && AllHex(s)
  {
    if n < 16 then [HexChar(n)] else Hex(n / 16) + [HexChar(n % 16)]
  }

  function HexValue(s: string): nat
    requires AllHex(s)
  {
    if s == "" then 0 else 16 * HexValue(s[..|s| - 1]) + HexDigitValue(s[|s| - 1])
  }

  /** `from_i_to_hex`. */
  method FromIToHex(n: nat) returns (ret: string)
    ensures ret == Hex(n)
  {
    ret := [HexChar(n % 16)];
    var m := n / 16;
    while m > 0
      invariant Hex(n) == if m > 0 then Hex(m) + ret else ret
    {
      Associate(Hex(m / 16), [HexChar(m % 16)], ret);
      ret := [HexChar(m % 16)] + ret;
      m := m / 16;
    }
  }

  lemma {:induction false} ValueOfHex(n: nat)
    ensures HexValue(Hex(n)) == n
    ensures Hex(n)[0] == '0' <==> n == 0
  {
    if n >= 16 {
      ValueOfHex(n / 16);
      var s := Hex(n);
      assert s[..|s| - 1] == Hex(n / 16);
    } else {
      assert [HexChar(n)][..0] == "";
    }
  }

  function Power16(k: nat): nat {
    if k == 0 then 1 else 16 * Power16(k - 1)
  }

  lemma {:induction false} HexLength(n: nat, k: nat)
    requires k >= 1 && n < Power16(k)
    ensures |Hex(n)| <= k
  {
    if n < 16 {
    } else {
      assert k > 1 by {
        assert Power16(1) == 16 * Power16(0);
      }
      HexLength(n / 16, k - 1);
    }
  }

  lemma Power16Of16()
    ensures Power16(16) == ULONG_MAX + 1
  {
    assert Power16(4) == 0x1_0000;
    assert Power16(8) == 0x1_0000_0000;
    assert Power16(12) == 0x1_0000_0000_0000;
  }

  function LeadingHex(t: string): (n: nat)
    ensures n <= |t| && AllHex(t[..n])
    ensures n < |t| ==> !IsHex(t[n])
  {
    if t != "" && IsHex(t[0]) then
      var n := LeadingHex(t[1..]);
      assert t[..1 + n] == [t[0]] + t[1..][..n];
      1 + n
    else 0
  }

  /** `strtoul(t, &end, 16)`: the value, and whether anything was converted. */
  function Strtoul16(t: string): (nat, bool) {
    var u := AfterSpaces(t);
    var signed := u != "" && (u[0] == '-' || u[0] == '+');
    var v := if signed then u[1..] else u;
    var digits := if |v| >= 3 && v[0] == '0' && (v[1] == 'x' || v[1] == 'X') && IsHex(v[2]) then v[2..] else v;
    var n := LeadingHex(digits);
    if n == 0 then (0, false)
    else
      var value := HexValue(digits[..n]);
      if value > ULONG_MAX then (ULONG_MAX, true)
      else if signed && u[0] == '-' then ((ULONG_MAX + 1 - value) % (ULONG_MAX + 1), true)
      else (value, true)
  }

  // ----- lines -----

  /** What one call of `getline` leaves: success, the line, and the unread bytes. */
  datatype LineRead = LineRead(ok: bool, line: string, left: string)

  /** Up to and including the first line end; the last line may lack one. */
  function ReadLine(rest: string): (r: LineRead)
    ensures r.line + r.left == rest && (r.ok ==> r.line != "")
  {
    match Find(rest, CRLF)
    case Some(i) =>
      if i + 2 <= MAX_LINE_LENGTH then LineRead(true, rest[..i + 2], rest[i + 2..])
      else LineRead(false, rest[..MAX_LINE_LENGTH], rest[MAX_LINE_LENGTH..])
    case None =>
      if |rest| >= MAX_LINE_LENGTH then LineRead(false, rest[..MAX_LINE_LENGTH], rest[MAX_LINE_LENGTH..])
      else LineRead(rest != "", rest, "")
  }

  // ----- the decoder -----

  datatype Status = Success | PayloadTooLarge | Failure

  /** The result, the bytes handed to the receiver, and the unread bytes. */
  datatype Decoded = Decoded(status: Status, delivered: string, left: string)

  /** The lines after the last chunk, up to an empty one. */
  function Trailer(declared: string -> bool, line: string, rest: string, count: nat): Decoded
    decreases |rest|
  {
    if line == CRLF then Decoded(Success, "", rest)
    else if |line| > MAX_TRAILER_LENGTH || count >= MAX_TRAILER_COUNT then Decoded(Failure, "", rest)
    else
      var r := ReadLine(rest);
      if !r.ok then Decoded(Failure, "", r.left)
      else Trailer(declared, r.line, r.left, if declared(line) then count + 1 else count)
  }

  /** A chunk's bytes, the line end after them, and the line of the next size. */
  datatype Taken = Taken(ok: bool, out: string, line: string, left: string)

  function TakeChunk(rest: string, n: nat): (c: Taken)
    ensures c.ok && n > 0 ==> |c.left| < |rest|
  {
    if |rest| < n then Taken(false, rest, "", "")
    else
      var end := ReadLine(rest[n..]);
      if !end.ok || end.line != CRLF then Taken(false, rest[..n], "", end.left)
      else
        var next := ReadLine(end.left);
        Taken(next.ok, rest[..n], if next.ok then next.line else "", next.left)
  }

  /** How the number at the start of a line is read, and which trailer lines hold a
      field that the message declared. */
  datatype Reading = Reading(size: string -> (nat, bool), declared: string -> bool)

  /** The loop of `read_content_chunked`, with the line of a chunk size at hand and
      what has been delivered so far. */
  function Chunks(how: Reading, line: string, rest: string, delivered: string, total: nat, max: nat): Decoded
    decreases |rest|
  {
    var (n, converted) := how.size(line);
    if !converted || n == ULONG_MAX then Decoded(Failure, delivered, rest)
    else if n == 0 then Finish(how.declared, delivered, rest)
    else if total > max || max - total < n then Decoded(PayloadTooLarge, delivered, rest)
    else
      var c := TakeChunk(rest, n);
      if !c.ok then Decoded(Failure, delivered + c.out, c.left)
      else Chunks(how, c.line, c.left, delivered + c.out, total + n, max)
  }

  /** After the last chunk. */
  function Finish(declared: string -> bool, delivered: string, rest: string): Decoded {
    var r := ReadLine(rest);
    if !r.ok then Decoded(Success, delivered, r.left) else Trailer(declared, r.line, r.left, 0).(delivered := delivered)
  }

  function Decode(declared: string -> bool, bytes: string, max: nat): Decoded {
    var r := ReadLine(bytes);
    if !r.ok then Decoded(Failure, "", r.left) else Chunks(Reading(Strtoul16, declared), r.line, r.left, "", 0, max)
  }

  /** A stream whose reads return as many bytes as happen to be there. */
  class Stream {
    var rest: string

    constructor (bytes: string)
      ensures rest == bytes
    {
      rest := bytes;
    }

    method Read(n: nat) returns (s: string)
      modifies this
      ensures s + rest == old(rest) && |s| <= n
      ensures n > 0 && old(rest) != "" ==> s != ""
    {
      if n == 0 || rest == "" {
        return "";
      }
      var k :| 1 <= k <= n && k <= |rest|;
      s, rest := rest[..k], rest[k..];
    }
  }

  /** `stream_line_reader`: a line is kept in the fixed buffer as long as it fits,
      with a terminating NUL, and in the growable one after that. */
  class LineReader {
    const strm: Stream
    const fixed: array<char>
    var used: nat
    var growable: string

    ghost predicate Valid()
      reads this, fixed
    {
      && 2 <= fixed.Length && used < fixed.Length
      && (growable == "" && used > 0 ==> fixed[used] == '\0')
      && (growable != "" ==> used == fixed.Length - 1)
    }

    function Text(): string
      requires Valid()
      reads this, fixed
    {
      if growable == "" then fixed[..used] else growable
    }

    constructor (strm: Stream, size: nat)
      requires size >= 2
      ensures this.strm == strm && fresh(fixed) && fixed.Length == size && Valid() && Text() == ""
    {
      this.strm := strm;
      fixed := new char[size](i => '\0');
      used, growable := 0, "";
    }

    method Append(c: char)
      requires Valid()
      modifies `used, `growable, fixed
      ensures Valid() && Text() == old(Text()) + [c]
    {
      ghost var before := Text();
      if used < fixed.Length - 1 {
        assert growable == "";
        fixed[used] := c;
        used := used + 1;
        fixed[used] := '\0';
        assert fixed[..used] == before + [c];
      } else {
        if growable == "" {
          growable := fixed[..used];
        }
        growable := growable + [c];
      }
    }

    method Getline() returns (ok: bool)
      requires Valid()
      modifies this, fixed, strm
      ensures Valid() && LineRead(ok, Text(), strm.rest) == ReadLine(old(strm.rest))
    {
      hide ReadLine, Scanning;
      used, growable := 0, "";
      var prev := '\0';
      ghost var bytes := strm.rest;
      StartScan(bytes);
      while true
        invariant Valid() && Scanning(bytes, Text(), strm.rest, prev)
        decreases |strm.rest|
      {
        if |Text()| >= MAX_LINE_LENGTH {
          TooLong(bytes, Text(), strm.rest, prev);
          return false;
        }
        ghost var text, left := Text(), strm.rest;
        var byte := strm.Read(1);
        if byte == "" {
          AtEnd(bytes, text, prev);
          return |Text()| != 0;
        }
        assert left == [byte[0]] + strm.rest;
        OneMoreByte(bytes, text, byte[0], strm.rest, prev);
        Append(byte[0]);
        if prev == '\r' && byte[0] == '\n' {
          return true;
        }
        prev := byte[0];
      }
    }

    /** `read_content_with_length`: exactly `len` bytes, in whatever pieces; `accept`
        is the receiver's answer, given all that it has been handed. */
    method ReadContent(len: nat, accept: string -> bool, before: string)
      returns (ok: bool, out: string, ghost handed: seq<string>)
      modifies strm
      ensures out + strm.rest == old(strm.rest) && |out| <= len
      ensures Handed(accept, handed, before, before + out)
      ensures ok ==> |out| == len && NoneRefused(accept, handed)
      ensures !ok && NoneRefused(accept, handed) ==> |out| == |old(strm.rest)| < len
    {
      hide Handed, NoneRefused;
      out, handed := "", [];
      NothingHanded(accept, before);
      assert before + out == before;
      while |out| < len
        invariant out + strm.rest == old(strm.rest) && |out| <= len
        invariant Handed(accept, handed, before, before + out) && NoneRefused(accept, handed)
      {
        var bytes := strm.Read(len - |out|);
        if bytes == "" {
          return false, out, handed;
        }
        HandOn(accept, handed, before, before + out, bytes);
        Associate(before, out, bytes);
        Associate(out, bytes, strm.rest);
        out := out + bytes;
        handed := handed + [before + out];
        if !accept(before + out) {
          LastAccepted(accept, handed);
          return false, out, handed;
        }
      }
      ok := true;
    }

    method SkipTrailer(declared: string -> bool) returns (status: Status)
      requires Valid()
      modifies this, fixed, strm
      ensures Valid() && Decoded(status, "", strm.rest) == Trailer(declared, old(Text()), old(strm.rest), 0)
    {
      hide ReadLine;
      ghost var start := Trailer(declared, Text(), strm.rest, 0);
      var count := 0;
      while Text() != CRLF
        invariant Valid() && start == Trailer(declared, Text(), strm.rest, count)
        decreases |strm.rest|
      {
        if |Text()| > MAX_TRAILER_LENGTH {
          return Failure;
        }
        if count >= MAX_TRAILER_COUNT {
          return Failure;
        }
        if declared(Text()) {
          count := count + 1;
        }
        var ok := Getline();
        if !ok {
          return Failure;
        }
      }
      status := Success;
    }

    method TakeOne(n: nat, accept: string -> bool, before: string)
      returns (ok: bool, out: string, ghost handed: seq<string>)
      requires Valid()
      modifies this, fixed, strm
      ensures Valid() && Handed(accept, handed, before, before + out)
      ensures ok ==> NoneRefused(accept, handed)
      ensures out <= TakeChunk(old(strm.rest), n).out
      ensures NoneRefused(accept, handed) ==>
        Taken(ok, out, if ok then Text() else "", strm.rest) == TakeChunk(old(strm.rest), n)
    {
      hide Handed, NoneRefused;
      ghost var rest := strm.rest;
      ok, out, handed := ReadContent(n, accept, before);
      PartDelivered(rest, out, strm.rest, n);
      if !ok {
        return;
      }
      Delivering(rest, out, strm.rest, n);
      ok := Getline();
      if !ok || Text() != CRLF {
        return false, out, handed;
      }
      ok := Getline();
    }

    /** The loop over the chunks; `how` is how a size line is read. */
    method ReadChunks(how: Reading, max: nat, accept: string -> bool)
      returns (status: Status, delivered: string, ghost handed: seq<string>)
      requires Valid()
      modifies this, fixed, strm
      ensures NoneRefused(accept, handed) ==>
        Decoded(status, delivered, strm.rest) == Chunks(how, old(Text()), old(strm.rest), "", 0, max)
      ensures delivered <= Chunks(how, old(Text()), old(strm.rest), "", 0, max).delivered
      ensures Handed(accept, handed, "", delivered) && (!NoneRefused(accept, handed) ==> status == Failure)
    {
      hide TakeChunk, Handed, NoneRefused;
      delivered, handed := "", [];
      NothingHanded(accept, "");
      var total := 0;
      ghost var result := Chunks(how, Text(), strm.rest, "", 0, max);
      while true
        invariant Valid()
        invariant result == Chunks(how, Text(), strm.rest, delivered, total, max)
        invariant Handed(accept, handed, "", delivered) && NoneRefused(accept, handed)
        decreases |strm.rest|
      {
        ChunksDeliver(how, Text(), strm.rest, delivered, total, max);
        var (n, converted) := how.size(Text());
        if !converted || n == ULONG_MAX {
          return Failure, delivered, handed;
        }
        if n == 0 {
          status := FinishTrailer(how.declared, delivered);
          return;
        }
        if total > max || max - total < n {
          return PayloadTooLarge, delivered, handed;
        }
        ghost var line, rest := Text(), strm.rest;
        ghost var more;
        var ok, out;
        ok, out, more := TakeOne(n, accept, delivered);
        HandMore(accept, handed, more, "", delivered, delivered + out);
        PartAccepted(accept, handed, more);
        PartOfChunks(how, result, line, rest, delivered, total, max, n, out);
        if NoneRefused(accept, more) {
          ghost var c := Taken(ok, out, if ok then Text() else "", strm.rest);
          ChunkTaken(how, result, line, rest, delivered, total, max, n, c);
        }
        total, delivered, handed := total + n, delivered + out, handed + more;
        if !ok {
          return Failure, delivered, handed;
        }
      }
    }

    method FinishTrailer(declared: string -> bool, ghost delivered: string) returns (status: Status)
      requires Valid()
      modifies this, fixed, strm
      ensures Valid() && Decoded(status, delivered, strm.rest) == Finish(declared, delivered, old(strm.rest))
    {
      var ok := Getline();
      if !ok {
        return Success;
      }
      status := SkipTrailer(declared);
    }

    /** `read_content_chunked` over the reader's stream; `handed` is what the receiver
        has got at each of its calls.  Unless it refuses the last one, which ends in
        failure, the result is that of the specification, and otherwise a part of it. */
    method ReadContentChunked(max: nat, declared: string -> bool, accept: string -> bool)
      returns (status: Status, delivered: string, ghost handed: seq<string>)
      requires Valid()
      modifies this, fixed, strm
      ensures NoneRefused(accept, handed) ==>
        Decoded(status, delivered, strm.rest) == Decode(declared, old(strm.rest), max)
      ensures delivered <= Decode(declared, old(strm.rest), max).delivered
      ensures Handed(accept, handed, "", delivered) && (!NoneRefused(accept, handed) ==> status == Failure)
    {
      hide Handed, NoneRefused;
      var ok := Getline();
      if !ok {
        NothingHanded(accept, "");
        return Failure, "", [];
      }
      status, delivered, handed := ReadChunks(Reading(Strtoul16, declared), max, accept);
    }
  }

  /** The receiver, which had got `before`, was called with more each time until it had
      got `now`, and refused none of these but perhaps the last. */
  ghost predicate Handed(accept: string -> bool, handed: seq<string>, before: string, now: string)
    decreases |handed|
  {
    if handed == [] then now == before
    else
      var earlier := handed[..|handed| - 1];
      var prior := if earlier == [] then before else earlier[|earlier| - 1];
      && handed[|handed| - 1] == now && prior < now
      && Handed(accept, earlier, before, prior) && NoneRefused(accept, earlier)
  }

  ghost predicate NoneRefused(accept: string -> bool, handed: seq<string>) {
    forall x :: x in handed ==> accept(x)
  }

  lemma NothingHanded(accept: string -> bool, before: string)
    ensures Handed(accept, [], before, before) && NoneRefused(accept, [])
  {
  }

  lemma HandOn(accept: string -> bool, handed: seq<string>, before: string, now: string, bytes: string)
    requires Handed(accept, handed, before, now) && NoneRefused(accept, handed) && bytes != ""
    ensures Handed(accept, handed + [now + bytes], before, now + bytes)
    ensures accept(now + bytes) ==> NoneRefused(accept, handed + [now + bytes])
  {
    assert (handed + [now + bytes])[..|handed|] == handed;
  }

  lemma {:induction false} HandMore(accept: string -> bool, a: seq<string>, b: seq<string>, first: string, mid: string,
      last: string)
    requires Handed(accept, a, first, mid) && NoneRefused(accept, a) && Handed(accept, b, mid, last)
    ensures Handed(accept, a + b, first, last)
    ensures NoneRefused(accept, b) ==> NoneRefused(accept, a + b)
    decreases |b|
  {
    if b == [] {
      assert a + b == a;
    } else {
      var earlier, now := LastHanded(accept, b, mid, last);
      hide Handed, NoneRefused;
      HandMore(accept, a, earlier, first, mid, now);
      HandOn(accept, a + earlier, first, now, last[|now|..]);
      Associate(a, earlier, [last]);
      LastAccepted(accept, b);
    }
  }

  lemma PartAccepted(accept: string -> bool, a: seq<string>, b: seq<string>)
    ensures NoneRefused(accept, a + b) ==> NoneRefused(accept, b)
  {
  }

  lemma LastHanded(accept: string -> bool, handed: seq<string>, before: string, now: string)
    returns (earlier: seq<string>, prior: string)
    requires Handed(accept, handed, before, now) && handed != []
    ensures |earlier| < |handed| && handed == earlier + [now] && Handed(accept, earlier, before, prior)
    ensures NoneRefused(accept, earlier) && prior < now && prior + now[|prior|..] == now && now[|prior|..] != ""
  {
    hide NoneRefused;
    earlier := handed[..|handed| - 1];
    prior := if earlier == [] then before else earlier[|earlier| - 1];
  }

  lemma LastAccepted(accept: string -> bool, handed: seq<string>)
    ensures handed != [] && NoneRefused(accept, handed) ==> accept(handed[|handed| - 1])
  {
  }

  lemma PartDelivered(rest: string, out: string, left: string, n: nat)
    requires out + left == rest && |out| <= n
    ensures out <= TakeChunk(rest, n).out
  {
    hide ReadLine;
  }

  /** More chunks deliver more. */
  lemma {:induction false} ChunksDeliver(how: Reading, line: string, rest: string, delivered: string, total: nat,
      max: nat)
    ensures delivered <= Chunks(how, line, rest, delivered, total, max).delivered
    decreases |rest|
  {
    hide TakeChunk;
    var (n, converted) := how.size(line);
    if converted && n != ULONG_MAX && n != 0 && total <= max && n <= max - total {
      var c := TakeChunk(rest, n);
      if c.ok {
        ChunksDeliver(how, c.line, c.left, delivered + c.out, total + n, max);
      }
    }
  }

  lemma PartOfChunks(how: Reading, result: Decoded, line: string, rest: string, delivered: string, total: nat, max: nat,
      n: nat, out: string)
    requires result == Chunks(how, line, rest, delivered, total, max)
    requires how.size(line) == (n, true) && n != 0 && n != ULONG_MAX && total <= max && n <= max - total
    requires out <= TakeChunk(rest, n).out
    ensures delivered + out <= result.delivered
  {
    hide TakeChunk;
    var c := TakeChunk(rest, n);
    assert delivered + out <= delivered + c.out;
    if c.ok {
      ChunksDeliver(how, c.line, c.left, delivered + c.out, total + n, max);
    }
  }

  lemma ChunkTaken(how: Reading, result: Decoded, line: string, rest: string, delivered: string, total: nat, max: nat,
      n: nat, c: Taken)
    requires result == Chunks(how, line, rest, delivered, total, max)
    requires how.size(line) == (n, true) && n != 0 && n != ULONG_MAX && total <= max && n <= max - total
    requires c == TakeChunk(rest, n)
    ensures c.ok ==> result == Chunks(how, c.line, c.left, delivered + c.out, total + n, max)
    ensures !c.ok ==> result == Decoded(Failure, delivered + c.out, c.left)
  {
    hide TakeChunk;
  }

  lemma Delivering(rest: string, out: string, left: string, n: nat)
    requires out + left == rest && |out| == if n <= |rest| then n else |rest|
    ensures n <= |rest| ==> rest[..n] == out && rest[n..] == left
    ensures n > |rest| ==> rest == out && left == ""
  {
  }

  /** Part of a line has been read, and no line end yet. */
  ghost predicate Scanning(bytes: string, text: string, left: string, prev: char) {
    && bytes == text + left && |text| <= MAX_LINE_LENGTH
    && prev == (if text == "" then '\0' else text[|text| - 1])
    && forall j :: 0 <= j < |text| - 1 ==> !At(bytes, CRLF, j)
  }

  lemma StartScan(bytes: string)
    ensures Scanning(bytes, "", bytes, '\0')
  {
    assert bytes == "" + bytes;
  }

  lemma TooLong(bytes: string, text: string, left: string, prev: char)
    requires Scanning(bytes, text, left, prev) && |text| >= MAX_LINE_LENGTH
    ensures ReadLine(bytes) == LineRead(false, text, left)
  {
    assert bytes[..|text|] == text && bytes[|text|..] == left;
  }

  lemma AtEnd(bytes: string, text: string, prev: char)
    requires Scanning(bytes, text, "", prev) && |text| < MAX_LINE_LENGTH
    ensures ReadLine(bytes) == LineRead(text != "", text, "")
  {
    assert bytes == text;
    assert forall j :: |text| - 1 <= j ==> !At(bytes, CRLF, j);
  }

  lemma OneMoreByte(bytes: string, text: string, c: char, left: string, prev: char)
    requires Scanning(bytes, text, [c] + left, prev) && |text| < MAX_LINE_LENGTH
    ensures if prev == '\r' && c == '\n' then ReadLine(bytes) == LineRead(true, text + [c], left)
      else Scanning(bytes, text + [c], left, c)
  {
    assert bytes == (text + [c]) + left;
    if text != "" {
      var k := |text| - 1;
      assert bytes[k] == prev && bytes[k + 1] == c;
      if prev == '\r' && c == '\n' {
        assert bytes[k..k + 2] == CRLF;
        FindIs(bytes, CRLF, k);
        assert bytes[..k + 2] == text + [c] && bytes[k + 2..] == left;
      } else {
        NotAt(bytes, CRLF, k, if prev == '\r' then 1 else 0);
      }
    }
  }

  // ----- the encoder -----

  function Chunk(p: string): string {
    Hex(|p|) + CRLF + p + CRLF
  }

  const DONE_MARKER := "0\r\n\r\n"

  /** The chunks of these writes; an empty write sends nothing. */
  function ChunksOf(writes: seq<string>): string {
    if writes == [] then ""
    else ChunksOf(writes[..|writes| - 1]) + if writes[|writes| - 1] == "" then "" else Chunk(writes[|writes| - 1])
  }

  /** The last write of a call is empty. */
  predicate EndsEmpty(writes: seq<string>) {
    writes != [] && writes[|writes| - 1] == ""
  }

  /** What is sent when each call of the content provider makes its writes, and one
      more makes the last ones and reports the end.  A call whose last write is empty
      makes the loop stop at once. */
  function Sent(calls: seq<seq<string>>, last: seq<string>): string {
    if calls == [] then ChunksOf(last) + DONE_MARKER
    else ChunksOf(calls[0]) + if EndsEmpty(calls[0]) then "" else Sent(calls[1..], last)
  }

  /** The sink's `write` for the writes of one call; `available` is whether more is
      expected. */
  method SinkWrites(stream: string, available: bool, writes: seq<string>) returns (stream': string, available': bool)
    ensures stream' == stream + ChunksOf(writes)
    ensures available' == if writes == [] then available else !EndsEmpty(writes)
  {
    stream', available' := stream, available;
    assert writes[..0] == [] && stream + "" == stream;
    for i := 0 to |writes|
      invariant stream' == stream + ChunksOf(writes[..i])
      invariant available' == if i == 0 then available else writes[i - 1] != ""
    {
      hide Hex;
      var payload := writes[i];
      assert writes[..i + 1][..i] == writes[..i];
      available' := |payload| > 0;
      if payload != "" {
        var size := FromIToHex(|payload|);
        Associate(stream, ChunksOf(writes[..i]), Chunk(payload));
        stream' := stream' + (size + CRLF + payload + CRLF);
      }
    }
    assert writes[..|writes|] == writes;
  }

  /** `write_content_chunked` without compression. */
  method WriteContentChunked(calls: seq<seq<string>>, last: seq<string>) returns (stream: string)
    ensures stream == Sent(calls, last)
  {
    hide ChunksOf, Sent, EndsEmpty;
    stream := "";
    var dataAvailable, i := true, 0;
    assert stream + Sent(calls[0..], last) == Sent(calls, last);
    while dataAvailable
      invariant 0 <= i <= |calls|
      invariant Sent(calls, last) == stream + if dataAvailable then Sent(calls[i..], last) else ""
      decreases dataAvailable, |calls| - i
    {
      if i < |calls| {
        SentFrom(calls, last, i, stream);
        stream, dataAvailable := SinkWrites(stream, dataAvailable, calls[i]);
        i := i + 1;
      } else {
        SentLast(calls, last, stream);
        stream, dataAvailable := SinkWrites(stream, dataAvailable, last);
        dataAvailable := false;
        stream := stream + "0\r\n" + "\r\n";
      }
    }
    assert stream + "" == stream;
  }

  /** One call of the content provider. */
  lemma SentFrom(calls: seq<seq<string>>, last: seq<string>, i: nat, stream: string)
    requires i < |calls|
    ensures stream + Sent(calls[i..], last)
      == stream + ChunksOf(calls[i]) + if EndsEmpty(calls[i]) then "" else Sent(calls[i + 1..], last)
    ensures calls[i] == [] ==> !EndsEmpty(calls[i])
  {
    hide ChunksOf;
    assert calls[i..][1..] == calls[i + 1..];
    Associate(stream, ChunksOf(calls[i]), if EndsEmpty(calls[i]) then "" else Sent(calls[i + 1..], last));
  }

  lemma SentLast(calls: seq<seq<string>>, last: seq<string>, stream: string)
    ensures stream + Sent(calls[|calls|..], last) == stream + ChunksOf(last) + "0\r\n" + "\r\n"
  {
    hide ChunksOf;
    Associate(stream, ChunksOf(last), DONE_MARKER);
    Associate(stream + ChunksOf(last), "0\r\n", "\r\n");
  }

  function AllOf(calls: seq<seq<string>>, last: seq<string>): string {
    if calls == [] then Concat(last) else Concat(calls[0]) + AllOf(calls[1..], last)
  }

  // ----- reading back what was written -----

  lemma HexHasNoLineEnd(n: nat)
    ensures forall i :: 0 <= i < |Hex(n)| ==> Hex(n)[i] != '\r' && Hex(n)[i] != '\n' && !IsSpace(Hex(n)[i])
  {
  }

  /** A line end ends the line that has none before it. */
  lemma LineOf(a: string, more: string)
    requires |a| + 2 <= MAX_LINE_LENGTH && forall i :: 0 <= i < |a| ==> a[i] != '\r'
    ensures ReadLine(a + CRLF + more) == LineRead(true, a + CRLF, more)
  {
    var s := a + CRLF + more;
    assert s[|a|..|a| + 2] == CRLF;
    forall j | 0 <= j < |a| ensures !At(s, CRLF, j) {
      assert s[j] == a[j];
      NotAt(s, CRLF, j, 0);
    }
    FindIs(s, CRLF, |a|);
    assert s[..|a| + 2] == a + CRLF && s[|a| + 2..] == more;
  }

  lemma SizeLineShort(n: nat)
    requires n <= ULONG_MAX
    ensures |Hex(n)| <= 16
  {
    Power16Of16();
    HexLength(n, 16);
  }

  lemma {:induction false} HexRun(d: string, r: string)
    requires AllHex(d) && (r == "" || !IsHex(r[0]))
    ensures LeadingHex(d + r) == |d|
  {
    if d == "" {
      assert d + r == r;
    } else {
      assert (d + r)[1..] == d[1..] + r;
      HexRun(d[1..], r);
    }
  }

  lemma HexLineRead(d: string, t: string)
    requires t == d + CRLF && d != "" && AllHex(d) && HexValue(d) <= ULONG_MAX
    ensures Strtoul16(t) == (HexValue(d), true)
  {
    hide HexValue, LeadingHex;
    assert IsHex(d[0]) && t[0] == d[0] && !IsSpace(t[0]);
    assert AfterSpaces(t) == t;
    assert t[1] == if |d| > 1 then d[1] else '\r';
    HexRun(d, CRLF);
    assert t[..|d|] == d;
  }

  /** The size line is read as the size. */
  lemma SizeRead(n: nat)
    requires n <= ULONG_MAX
    ensures Strtoul16(Hex(n) + CRLF) == (n, true)
  {
    hide Hex, Strtoul16;
    ValueOfHex(n);
    HexLineRead(Hex(n), Hex(n) + CRLF);
  }

  lemma Regroup(a: string, b: string, c: string, d: string, e: string)
    ensures a + b + c + d + e == a + b + (c + d + e)
  {
  }

  lemma ChunkRead(p: string, more: string)
    requires p != "" && |p| <= ULONG_MAX
    ensures ReadLine(Chunk(p) + more) == LineRead(true, Hex(|p|) + CRLF, p + CRLF + more)
  {
    hide ReadLine, Hex;
    HexHasNoLineEnd(|p|);
    SizeLineShort(|p|);
    LineOf(Hex(|p|), p + CRLF + more);
    Regroup(Hex(|p|), CRLF, p, CRLF, more);
  }

  /** The chunk is taken out, and the next line read. */
  lemma ChunkTakenOut(p: string, more: string)
    ensures TakeChunk(p + CRLF + more, |p|)
      == Taken(ReadLine(more).ok, p, if ReadLine(more).ok then ReadLine(more).line else "", ReadLine(more).left)
  {
    var rest := p + CRLF + more;
    assert rest[..|p|] == p && rest[|p|..] == "" + CRLF + more;
    LineOf("", more);
    assert "" + CRLF == CRLF;
  }

  /** The state after reading the first line of what is left to read. */
  function Resume(declared: string -> bool, bytes: string, delivered: string, total: nat, max: nat): Decoded {
    var r := ReadLine(bytes);
    if !r.ok then Decoded(Failure, delivered, r.left)
    else Chunks(Reading(Strtoul16, declared), r.line, r.left, delivered, total, max)
  }

  lemma OneChunk(declared: string -> bool, p: string, more: string, delivered: string, total: nat, max: nat)
    requires p != "" && |p| < ULONG_MAX && total + |p| <= max
    ensures Resume(declared, Chunk(p) + more, delivered, total, max) == Resume(declared, more, delivered + p, total + |p|, max)
  {
    hide ReadLine, Hex, Strtoul16, TakeChunk;
    ChunkRead(p, more);
    SizeRead(|p|);
    ChunkTakenOut(p, more);
    ChunkTaken(Reading(Strtoul16, declared), Resume(declared, Chunk(p) + more, delivered, total, max), Hex(|p|) + CRLF,
      p + CRLF + more, delivered, total, max, |p|, TakeChunk(p + CRLF + more, |p|));
  }

  lemma DoneRead(declared: string -> bool, more: string, delivered: string, total: nat, max: nat)
    ensures Resume(declared, DONE_MARKER + more, delivered, total, max) == Decoded(Success, delivered, more)
  {
    hide ReadLine, Strtoul16;
    assert Hex(0) == "0";
    LineOf("0", CRLF + more);
    assert DONE_MARKER + more == "0" + CRLF + (CRLF + more);
    SizeRead(0);
    LineOf("", more);
    assert "" + CRLF == CRLF && CRLF + more == "" + CRLF + more;
  }

  lemma {:induction false} ResumeChunks(declared: string -> bool, writes: seq<string>, more: string, delivered: string,
      total: nat, max: nat)
    requires |Concat(writes)| < ULONG_MAX && total + |Concat(writes)| <= max
    ensures Resume(declared, ChunksOf(writes) + more, delivered, total, max)
      == Resume(declared, more, delivered + Concat(writes), total + |Concat(writes)|, max)
  {
    hide Resume, Chunk;
    if writes == [] {
      assert "" + more == more && delivered + "" == delivered;
    } else {
      var init, p := writes[..|writes| - 1], writes[|writes| - 1];
      if p == "" {
        assert Concat(init) + "" == Concat(init);
        assert ChunksOf(init) + "" + more == ChunksOf(init) + more;
        ResumeChunks(declared, init, more, delivered, total, max);
      } else {
        Associate(ChunksOf(init), Chunk(p), more);
        ResumeChunks(declared, init, Chunk(p) + more, delivered, total, max);
        OneChunk(declared, p, more, delivered + Concat(init), total + |Concat(init)|, max);
        Associate(delivered, Concat(init), p);
      }
    }
  }

  /** Every call but the last one leaves the loop expecting more. */
  predicate KeepsGoing(calls: seq<seq<string>>) {
    forall i :: 0 <= i < |calls| ==> !EndsEmpty(calls[i])
  }

  lemma {:induction false} ResumeSent(declared: string -> bool, calls: seq<seq<string>>, last: seq<string>,
      more: string,
      delivered: string, total: nat, max: nat)
    requires KeepsGoing(calls) && total + |AllOf(calls, last)| <= max && |AllOf(calls, last)| < ULONG_MAX
    ensures Resume(declared, Sent(calls, last) + more, delivered, total, max)
      == Decoded(Success, delivered + AllOf(calls, last), more)
    decreases |calls|
  {
    hide Resume, ChunksOf, Concat;
    if calls == [] {
      Associate(ChunksOf(last), DONE_MARKER, more);
      ResumeChunks(declared, last, DONE_MARKER + more, delivered, total, max);
      DoneRead(declared, more, delivered + Concat(last), total + |Concat(last)|, max);
    } else {
      var w, later := calls[0], calls[1..];
      Associate(ChunksOf(w), Sent(later, last), more);
      ResumeChunks(declared, w, Sent(later, last) + more, delivered, total, max);
      ResumeSent(declared, later, last, more, delivered + Concat(w), total + |Concat(w)|, max);
      Associate(delivered, Concat(w), AllOf(later, last));
    }
  }

  lemma NothingToResume(declared: string -> bool, delivered: string, total: nat, max: nat)
    ensures Resume(declared, "", delivered, total, max).status == Failure
  {
    assert Find("", CRLF) == None;
  }

  lemma {:induction false} ResumeCut(declared: string -> bool, calls: seq<seq<string>>, last: seq<string>,
      delivered: string,
      total: nat, max: nat)
    requires !KeepsGoing(calls) && total + |AllOf(calls, last)| <= max && |AllOf(calls, last)| < ULONG_MAX
    ensures Resume(declared, Sent(calls, last), delivered, total, max).status == Failure
    decreases |calls|
  {
    hide Resume, ChunksOf, Concat;
    var w, later := calls[0], calls[1..];
    ResumeChunks(declared, w, if EndsEmpty(w) then "" else Sent(later, last), delivered, total, max);
    if EndsEmpty(w) {
      NothingToResume(declared, delivered + Concat(w), total + |Concat(w)|, max);
    } else {
      assert !KeepsGoing(later) by {
        var i :| 0 <= i < |calls| && EndsEmpty(calls[i]);
        assert later[i - 1] == calls[i];
      }
      ResumeCut(declared, later, last, delivered + Concat(w), total + |Concat(w)|, max);
    }
  }

  /** What is written in chunks within the payload limit is read back, in one piece
      and to its last byte, exactly when no call but the last ends with an empty write. */
  lemma ChunkedRoundTrip(declared: string -> bool, calls: seq<seq<string>>, last: seq<string>, max: nat)
    requires |AllOf(calls, last)| <= max && |AllOf(calls, last)| < ULONG_MAX
    ensures Decode(declared, Sent(calls, last), max).status == Success <==> KeepsGoing(calls)
    ensures KeepsGoing(calls) ==> forall more ::
      Decode(declared, Sent(calls, last) + more, max) == Decoded(Success, AllOf(calls, last), more)
  {
    hide ReadLine, Chunks, KeepsGoing, Sent, AllOf;
    if KeepsGoing(calls) {
      forall more ensures Decode(declared, Sent(calls, last) + more, max) == Decoded(Success, AllOf(calls, last), more) {
        ResumeSent(declared, calls, last, more, "", 0, max);
        assert "" + AllOf(calls, last) == AllOf(calls, last);
      }
      assert Sent(calls, last) + "" == Sent(calls, last);
      assert Decode(declared, Sent(calls, last) + "", max) == Decoded(Success, AllOf(calls, last), "");
    } else {
      ResumeCut(declared, calls, last, "", 0, max);
    }
  }
}
