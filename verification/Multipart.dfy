/** The scan of a multipart body for the delimiter after it, in pieces and in place:
    state 3 of the form-data parser (httplib.h; section 5.1.1 of RFC 2046). */
module MultipartBodies {
  import opened Text

  datatype ScanState = Body | Boundary

  class BodyParser {
    const delimiter: string
    var buf: array<char>
    var spos: nat
    var epos: nat
    var state: ScanState
    var delivered: string

    ghost predicate Valid()
      reads this
    {
      spos <= epos <= buf.Length && delimiter != ""
    }

    /** The unread bytes. */
    ghost function Contents(): string
      requires Valid()
      reads this, buf
    {
      buf[spos..epos]
    }

    /** The state after the bytes `t`, however they came: the body up to the first
        delimiter is delivered, and without one all but its last bytes. */
    ghost predicate Follows(t: string)
      requires Valid()
      reads this, buf
    {
      match Find(t, delimiter)
      case None => state == Body && delivered == t[..Sure(t)] && Contents() == t[Sure(t)..]
      case Some(p) => state == Boundary && delivered == t[..p] && Contents() == t[p + |delimiter|..]
    }

    /** How much of `t` cannot belong to a delimiter that is still to come. */
    function Sure(t: string): (n: nat)
      ensures n <= |t|
    {
      if |t| >= |delimiter| then |t| - |delimiter| else 0
    }

    constructor (boundary: string)
      ensures Valid() && fresh(buf) && delimiter == CRLF + "--" + boundary && Follows("")
    {
      delimiter := CRLF + "--" + boundary;
      buf := new char[0];
      spos, epos, state, delivered := 0, 0, Body, "";
    }

    method BufSize() returns (n: nat)
      requires Valid()
      ensures n == |Contents()|
    {
      n := epos - spos;
    }

    method StartWith(from: nat, s: string) returns (r: bool)
      requires Valid() && spos <= from <= epos
      ensures r <==> At(Contents(), s, from - spos)
    {
      if epos - from < |s| {
        return false;
      }
      for i := 0 to |s|
        invariant forall k :: 0 <= k < i ==> Contents()[from - spos + k] == s[k]
      {
        assert Contents()[from - spos + i] == buf[i + from];
        if buf[i + from] != s[i] {
          NotAt(Contents(), s, from - spos, i);
          return false;
        }
      }
      AtByChars(Contents(), s, from - spos);
      r := true;
    }

    /** The offset of the first occurrence, or the size. */
    method BufFind(s: string) returns (r: nat)
      requires Valid() && s != ""
      ensures r == match Find(Contents(), s) { case Some(p) => p case None => |Contents()| }
    {
      var off := spos;
      while off < epos
        invariant spos <= off <= epos
        invariant forall j :: 0 <= j < off - spos ==> !At(Contents(), s, j)
      {
        var pos := off;
        while pos != epos && buf[pos] != s[0]
          invariant off <= pos <= epos
          invariant forall j :: 0 <= j < pos - spos ==> !At(Contents(), s, j)
          decreases epos - pos
        {
          assert Contents()[pos - spos] == buf[pos];
          NotAt(Contents(), s, pos - spos, 0);
          pos := pos + 1;
        }
        if pos == epos || |s| > epos - pos {
          Absent(Contents(), s, pos - spos);
          return epos - spos;
        }
        var here := StartWith(pos, s);
        if here {
          FindIs(Contents(), s, pos - spos);
          return pos - spos;
        }
        off := pos + 1;
      }
      Absent(Contents(), s, off - spos);
      r := epos - spos;
    }

    /** Moves the unread bytes to the front, in place. */
    method Compact()
      requires Valid()
      modifies `spos, `epos, buf
      ensures Valid() && spos == 0 && Contents() == old(Contents())
    {
      ghost var before := Contents();
      var remaining := epos - spos;
      if remaining > 0 && spos > 0 {
        for i := 0 to remaining
          modifies buf
          invariant forall k :: 0 <= k < i ==> buf[k] == before[k]
          invariant forall k :: i <= k < remaining ==> buf[spos + k] == before[k]
        {
          assert before[i] == buf[spos + i];
          buf[i] := buf[spos + i];
        }
        assert buf[..remaining] == before;
      }
      spos, epos := 0, remaining;
    }

    method Resize(n: nat)
      requires Valid() && spos == 0 && n >= buf.Length
      modifies `buf
      ensures Valid() && fresh(buf) && buf.Length == n && Contents() == old(Contents())
    {
      var bigger := new char[n](i => '\0');
      for i := 0 to buf.Length
        invariant buf == old(buf) && bigger.Length == n
        invariant forall k :: 0 <= k < i ==> bigger[k] == buf[k]
      {
        bigger[i] := buf[i];
      }
      assert bigger[..epos] == buf[..epos];
      buf := bigger;
    }

    method CopyIn(data: string)
      requires Valid() && spos == 0 && epos + |data| <= buf.Length
      modifies `epos, buf
      ensures Valid() && spos == 0 && Contents() == old(Contents()) + data
    {
      ghost var before := Contents();
      for i := 0 to |data|
        modifies buf
        invariant buf[..epos] == before
        invariant buf[epos..epos + i] == data[..i]
      {
        buf[epos + i] := data[i];
      }
      assert data[..|data|] == data;
      assert buf[..epos + |data|] == buf[..epos] + buf[epos..epos + |data|];
      epos := epos + |data|;
    }

    method BufAppend(data: string)
      requires Valid()
      modifies `spos, `epos, `buf, buf
      ensures Valid() && (buf == old(buf) || fresh(buf)) && Contents() == old(Contents()) + data
    {
      Compact();
      if epos + |data| > buf.Length {
        Resize(epos + |data|);
      }
      CopyIn(data);
    }

    method BufErase(n: nat)
      requires Valid() && n <= |Contents()|
      modifies `spos
      ensures Valid() && Contents() == old(Contents())[n..]
    {
      spos := spos + n;
    }

    method BufHead(n: nat) returns (s: string)
      requires Valid() && n <= |Contents()|
      ensures s == Contents()[..n]
    {
      s := buf[spos..spos + n];
    }

    /** One call of `parse` while a body is being read. */
    method Parse(data: string, ghost t: string)
      requires Valid() && Follows(t)
      modifies this, buf
      ensures Valid() && (buf == old(buf) || fresh(buf)) && Follows(t + data)
    {
      BufAppend(data);
      if state == Boundary {
        AfterFound(t, data);
      } else {
        Window(t, data, delimiter, Sure(t));
        ScanBody(t + data, Sure(t));
      }
    }

    /** However the body is cut into calls, what is delivered are the bytes before
        the first delimiter; without one, all that cannot belong to it. */
    method ParseAll(pieces: seq<string>)
      requires Valid() && Follows("")
      modifies this, buf
      ensures Valid() && (buf == old(buf) || fresh(buf)) && Follows(Concat(pieces))
    {
      assert pieces[..0] == [];
      for i := 0 to |pieces|
        invariant Valid() && (buf == old(buf) || fresh(buf)) && Follows(Concat(pieces[..i]))
      {
        assert pieces[..i + 1][..i] == pieces[..i];
        Parse(pieces[i], Concat(pieces[..i]));
      }
      assert pieces[..|pieces|] == pieces;
    }

    /** The case of state 3; `k` bytes of `all` have been delivered. */
    method ScanBody(ghost all: string, ghost k: nat)
      requires Valid() && state == Body && k <= |all| && delivered == all[..k] && Contents() == all[k..]
      requires |all| - k < |delimiter| ==> k == 0
      requires Find(all, delimiter) == match Find(all[k..], delimiter) { case None => None case Some(p) => Some(k + p) }
      modifies `spos, `state, `delivered
      ensures Valid() && Follows(all)
    {
      hide Find, At;
      var size := BufSize();
      if |delimiter| > size {
        Absent(all[k..], delimiter, 0);
        return;
      }
      var pos := BufFind(delimiter);
      Within(all[k..], delimiter);
      if pos < size {
        SplitAt(all, k, pos);
        SplitAt(all, k, pos + |delimiter|);
        var head := BufHead(pos);
        delivered := delivered + head;
        BufErase(pos + |delimiter|);
        state := Boundary;
      } else {
        var len := size - |delimiter|;
        SplitAt(all, k, len);
        if len > 0 {
          var head := BufHead(len);
          delivered := delivered + head;
          BufErase(len);
        }
      }
    }

    lemma AfterFound(t: string, data: string)
      requires Find(t, delimiter).Some?
      ensures Find(t + data, delimiter) == Find(t, delimiter)
      ensures var p := Find(t, delimiter).value;
        (t + data)[..p] == t[..p] && (t + data)[p + |delimiter|..] == t[p + |delimiter|..] + data
    {
      var p := Find(t, delimiter).value;
      AtAppend(t, data, delimiter, p);
      forall j | 0 <= j < p ensures !At(t + data, delimiter, j) {
        AtAppend(t, data, delimiter, j);
      }
      FindIs(t + data, delimiter, p);
    }
  }

  lemma AtByChars(s: string, pat: string, i: nat)
    requires i + |pat| <= |s| && forall k :: 0 <= k < |pat| ==> s[i + k] == pat[k]
    ensures At(s, pat, i)
  {
  }

  lemma Within(s: string, pat: string)
    ensures Find(s, pat).Some? ==> Find(s, pat).value + |pat| <= |s|
  {
  }

  lemma Absent(s: string, pat: string, from: nat)
    requires forall j :: 0 <= j < from ==> !At(s, pat, j)
    requires from + |pat| > |s|
    ensures Find(s, pat).None?
  {
  }

  lemma Suffix(s: string, pat: string, k: nat, j: nat)
    requires k <= |s|
    ensures At(s[k..], pat, j) <==> At(s, pat, k + j)
  {
    if k + j + |pat| <= |s| {
      assert s[k..][j..j + |pat|] == s[k + j..k + j + |pat|];
    }
  }

  lemma SplitAt(s: string, k: nat, n: nat)
    requires k + n <= |s|
    ensures s[..k] + s[k..][..n] == s[..k + n] && s[k..][n..] == s[k + n..]
  {
  }

  lemma NoneBefore(t: string, data: string, pat: string, k: nat)
    requires Find(t, pat).None? && k == if |t| >= |pat| then |t| - |pat| else 0
    ensures forall j :: 0 <= j < k ==> !At(t + data, pat, j)
  {
    forall j | 0 <= j < k ensures !At(t + data, pat, j) {
      AtAppend(t, data, pat, j);
    }
  }

  /** The first occurrence, when there is none before `k`. */
  lemma FindAfter(s: string, pat: string, k: nat)
    requires k <= |s| && forall j :: 0 <= j < k ==> !At(s, pat, j)
    ensures Find(s, pat) == match Find(s[k..], pat) { case None => None case Some(p) => Some(k + p) }
  {
    var u := s[k..];
    forall j | 0 <= j ensures At(u, pat, j) <==> At(s, pat, k + j) {
      Suffix(s, pat, k, j);
    }
    var bound := if Find(u, pat).Some? then k + Find(u, pat).value else |s| + 1;
    forall j | 0 <= j < bound ensures !At(s, pat, j) {
      if j >= k {
        assert At(u, pat, j - k) <==> At(s, pat, k + (j - k));
      }
    }
    if Find(u, pat).Some? {
      FindIs(s, pat, bound);
    } else {
      Absent(s, pat, |s| + 1);
    }
  }

  /** Where no delimiter was found, one that more bytes complete starts among the
      bytes kept. */
  lemma Window(t: string, data: string, pat: string, k: nat)
    requires Find(t, pat).None? && pat != "" && k == if |t| >= |pat| then |t| - |pat| else 0
    ensures t[k..] + data == (t + data)[k..] && (t + data)[..k] == t[..k]
    ensures Find(t + data, pat) ==
      match Find((t + data)[k..], pat) { case None => None case Some(p) => Some(k + p) }
  {
    NoneBefore(t, data, pat, k);
    FindAfter(t + data, pat, k);
  }
}
