/** The load balancer's HTTP request parser (load_balancer/src/HttpHelper.cpp,
    load_balancer/include/HttpParser.h). */
module HttpHelpers {
  import opened Text

  const BLANK_LINE := "\r\n\r\n"
  const LENGTH_NAME := "Content-Length:"
  const LENGTH_NAME_LOWER := "content-length:"
  const MAX_LONG_LONG := 0x7FFF_FFFF_FFFF_FFFF
  const MIN_LONG_LONG := -0x8000_0000_0000_0000

  // ----- the Content-Length header -----

  predicate IsBlank(c: char) {
    c == ' ' || c == '\t'
  }

  function AfterBlanks(t: string): string {
    if t != "" && IsBlank(t[0]) then AfterBlanks(t[1..]) else t
  }

  function LeadingDigits(t: string): (n: nat)
    ensures n <= |t| && forall i :: 0 <= i < n ==> IsDigit(t[i])
    ensures n < |t| ==> !IsDigit(t[n])
  {
    if t != "" && IsDigit(t[0]) then 1 + LeadingDigits(t[1..]) else 0
  }

  /** `std::from_chars` into a `long long`; `None` when nothing is parsed or the
      value does not fit. */
  function FromChars(t: string): Option<int> {
    var negative := t != "" && t[0] == '-';
    var digits := if negative then t[1..] else t;
    var n := LeadingDigits(digits);
    if n == 0 then None
    else
      var m: int := Value(digits[..n]);
      var v := if negative then -m else m;
      if MIN_LONG_LONG <= v <= MAX_LONG_LONG then Some(v) else None
  }

  function NumberAfter(t: string): int {
    match FromChars(AfterBlanks(t))
    case None => 0
    case Some(n) => n
  }

  function LengthHeader(headers: string): Option<nat> {
    match Find(headers, LENGTH_NAME)
    case Some(i) => Some(i)
    case None => Find(headers, LENGTH_NAME_LOWER)
  }

  /** What `getContentLength` returns. */
  function ContentLength(headers: string): int {
    match LengthHeader(headers)
    case None => 0
    case Some(i) => NumberAfter(headers[i + 15..])
  }

  method GetContentLength(headers: string) returns (length: int)
    ensures length == ContentLength(headers)
  {
    var at := Find(headers, LENGTH_NAME);
    if at.None? {
      at := Find(headers, LENGTH_NAME_LOWER);
      if at.None? {
        return 0;
      }
    }
    var idx := at.value + 15;
    while idx < |headers| && IsBlank(headers[idx])
      invariant at.value + 15 <= idx <= |headers|
      invariant AfterBlanks(headers[idx..]) == AfterBlanks(headers[at.value + 15..])
    {
      assert headers[idx..][1..] == headers[idx + 1..];
      idx := idx + 1;
    }
    match FromChars(headers[idx..])
    case None => return 0;
    case Some(n) => return n;
  }

  // ----- requests -----

  datatype HttpRequest = HttpRequest(verb: string, path: string, version: string, body: string, rawRequest: string)

  datatype ParseResult =
    | Incomplete
    | Error(message: string)
    | Complete(request: HttpRequest, consumed: nat)

  /** What the header section alone decides. */
  datatype Head =
    | BadHead(message: string)
    | Head(verb: string, path: string, version: string, length: nat)

  function ParseHead(section: string): Head {
    match Find(section, CRLF)
    case None => BadHead("Malformed HTTP Request Line")
    case Some(lineEnd) =>
      var line := section[..lineEnd];
      match Find(line, " ")
      case None => BadHead("Invalid request lineStructure")
      case Some(space1) =>
        match FindFrom(line, " ", space1 + 1)
        case None => BadHead("Invalid request lineStructure")
        case Some(space2) =>
          var length := ContentLength(section);
          if length < 0 then BadHead("Invalid Content-Length header")
          else Head(line[..space1], line[space1 + 1..space2], line[space2 + 1..], length)
  }

  /** The rest of the parse, once the header section and its end are known. */
  function WithBody(buffer: string, headerEnd: nat, head: Head): ParseResult
    requires headerEnd + 4 <= |buffer|
  {
    match head
    case BadHead(message) => Error(message)
    case Head(verb, path, version, length) =>
      var total := headerEnd + 4 + length;
      if |buffer| < total then Incomplete
      else Complete(HttpRequest(verb, path, version, buffer[headerEnd + 4..total], buffer[..total]), total)
  }

  function ParseRequest(buffer: string): ParseResult {
    match Find(buffer, BLANK_LINE)
    case None => Incomplete
    case Some(headerEnd) => WithBody(buffer, headerEnd, ParseHead(buffer[..headerEnd]))
  }

  // ----- the key a request is routed by -----

  /** `s.find_last_of(c)`. */
  function FindLast(s: string, c: char): (r: Option<nat>)
    ensures r.Some? ==> r.value < |s| && s[r.value] == c
    ensures r.Some? ==> forall i :: r.value < i < |s| ==> s[i] != c
    ensures r.None? ==> forall i :: 0 <= i < |s| ==> s[i] != c
  {
    if s == "" then None
    else if s[|s| - 1] == c then Some(|s| - 1)
    else FindLast(s[..|s| - 1], c)
  }

  /** `HttpRequest::getKey`. */
  function GetKey(path: string, body: string): string {
    if path == "/kvstore/create" && body != "" then FirstWord(body)
    else
      match FindLast(path, '/')
      case None => path
      case Some(i) => if i + 1 < |path| then path[i + 1..] else path
  }
}
