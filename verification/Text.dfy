/** Strings as the C++ sources use them: `std::to_string`, `std::string::find`
    and decimal numerals.  A `char` stands for one byte. */
module Text {

  datatype Option<+T> = None | Some(value: T)

  const CRLF := "\r\n"

  lemma Associate<T>(a: seq<T>, b: seq<T>, c: seq<T>)
    ensures a + (b + c) == a + b + c
  {
  }

  predicate IsDigit(c: char) {
    '0' <= c <= '9'
  }

  function DigitChar(d: nat): (c: char)
    requires d < 10
    ensures IsDigit(c) && c as int - '0' as int == d
  {
    ('0' as int + d) as char
  }

  /** The decimal numeral of a natural number, without leading zeros. */
  function Digits(n: nat): (s: string)
    ensures s != [] && forall i :: 0 <= i < |s| ==> IsDigit(s[i])
  {
    if n < 10 then [DigitChar(n)] else Digits(n / 10) + [DigitChar(n % 10)]
  }

  /** The number a string of digits denotes. */
  function Value(s: string): nat
    requires forall i :: 0 <= i < |s| ==> IsDigit(s[i])
  {
    if s == [] then 0 else assert IsDigit(s[|s| - 1]); 10 * Value(s[..|s| - 1]) + (s[|s| - 1] as int - '0' as int)
  }

  lemma ValueByCodes(s: string, c: char)
    requires forall i :: 0 <= i < |s| ==> IsDigit(s[i])
    ensures IsDigit(c) <==> 48 <= c as int <= 57
    ensures IsDigit(c) ==> Value(s + [c]) == 10 * Value(s) + (c as int - 48)
    ensures Value("") == 0
  {
    assert (s + [c])[..|s|] == s;
  }

  lemma {:induction false} ValueOfDigits(n: nat)
    ensures Value(Digits(n)) == n
    ensures Digits(n)[0] == '0' <==> n == 0
  {
    if n < 10 {
    } else {
      ValueOfDigits(n / 10);
      var s := Digits(n);
      assert s[..|s| - 1] == Digits(n / 10);
    }
  }

  /** `std::to_string(int)`. */
  function ToString(n: int): (s: string)
    ensures s != [] && forall i :: 0 <= i < |s| ==> IsDigit(s[i]) || s[i] == '-'
  {
    if n < 0 then "-" + Digits(-n) else Digits(n)
  }

  lemma ToStringInjective(m: int, n: int)
    requires ToString(m) == ToString(n)
    ensures m == n
  {
    ValueOfDigits(if m < 0 then -m else m);
    ValueOfDigits(if n < 0 then -n else n);
    assert (m < 0) == (ToString(m)[0] == '-');
    assert (n < 0) == (ToString(n)[0] == '-');
    if m < 0 {
      assert ToString(m)[1..] == Digits(-m) && ToString(n)[1..] == Digits(-n);
    }
  }

  /** Text before the last separator determines, and is determined by, the whole. */
  lemma SplitAtLast(a: string, x: string, b: string, y: string, sep: string, c: char)
    requires |sep| > 0 && sep[|sep| - 1] == c
    requires c !in x && c !in y
    requires a + sep + x == b + sep + y
    ensures a == b && x == y
  {
    var s, n := a + sep + x, |a + sep + x|;
    assert s[n - 1 - |x|] == c && s[n - 1 - |y|] == c;
    assert forall j :: n - |x| <= j < n ==> s[j] == x[j - (n - |x|)];
    assert forall j :: n - |y| <= j < n ==> s[j] == y[j - (n - |y|)];
    assert |x| == |y|;
    assert s[..|a|] == a && s[..|b|] == b;
    assert s[n - |x|..] == x && s[n - |y|..] == y;
  }

  /** `pat` occurs in `s` at index `i`. */
  predicate At(s: string, pat: string, i: int) {
    0 <= i && i + |pat| <= |s| && s[i..i + |pat|] == pat
  }

  /** `s.find(pat, from)`: the least index not below `from` where `pat` occurs. */
  function FindFrom(s: string, pat: string, from: nat): (r: Option<nat>)
    ensures r.Some? ==> from <= r.value && At(s, pat, r.value)
    ensures r.Some? ==> forall i :: from <= i < r.value ==> !At(s, pat, i)
    ensures r.None? ==> forall i :: from <= i ==> !At(s, pat, i)
    decreases |s| - from
  {
    if from > |s| then None
    else if At(s, pat, from) then Some(from)
    else FindFrom(s, pat, from + 1)
  }

  function Find(s: string, pat: string): (r: Option<nat>)
    ensures r.Some? ==> At(s, pat, r.value)
    ensures r.Some? ==> forall i :: 0 <= i < r.value ==> !At(s, pat, i)
    ensures r.None? ==> forall i :: 0 <= i ==> !At(s, pat, i)
  {
    FindFrom(s, pat, 0)
  }

  /** One wrong character is enough. */
  lemma NotAt(s: string, pat: string, j: int, k: nat)
    requires k < |pat| && 0 <= j + k < |s| && s[j + k] != pat[k]
    ensures !At(s, pat, j)
  {
    if 0 <= j && j + |pat| <= |s| {
      assert s[j..j + |pat|][k] == s[j + k];
    }
  }

  lemma AtAppend(s: string, x: string, pat: string, j: int)
    ensures At(s, pat, j) ==> At(s + x, pat, j)
    ensures At(s + x, pat, j) && j + |pat| <= |s| ==> At(s, pat, j)
  {
    if 0 <= j && j + |pat| <= |s| {
      assert (s + x)[j..j + |pat|] == s[j..j + |pat|];
    }
  }

  lemma AtShift(a: string, s: string, pat: string, j: int)
    ensures 0 <= j ==> (At(a + s, pat, |a| + j) <==> At(s, pat, j))
  {
    if 0 <= j && j + |pat| <= |s| {
      assert (a + s)[|a| + j..|a| + j + |pat|] == s[j..j + |pat|];
    }
  }

  lemma AtChar(s: string, c: char, j: int)
    ensures At(s, [c], j) <==> 0 <= j < |s| && s[j] == c
  {
    if 0 <= j < |s| {
      assert s[j..j + 1] == [s[j]];
    }
  }

  /** Finding a single character. */
  lemma FindChar(s: string, c: char)
    ensures match Find(s, [c]) {
      case None => c !in s
      case Some(i) => i < |s| && s[i] == c && c !in s[..i]
    }
  {
    forall j: int ensures At(s, [c], j) <==> 0 <= j < |s| && s[j] == c {
      AtChar(s, c, j);
    }
    if c in s {
      var j :| 0 <= j < |s| && s[j] == c;
      assert At(s, [c], j);
    }
  }

  /** The first occurrence of a character, recognised. */
  lemma FindCharIs(s: string, c: char, i: nat)
    requires i < |s| && s[i] == c && c !in s[..i]
    ensures Find(s, [c]) == Some(i)
  {
    AtChar(s, c, i);
    forall j | 0 <= j < i ensures !At(s, [c], j) {
      AtChar(s, c, j);
      assert s[..i][j] == s[j];
    }
    FindIs(s, [c], i);
  }

  /** The least occurrence is what `Find` returns. */
  lemma FindIs(s: string, pat: string, i: nat)
    requires At(s, pat, i)
    requires forall j :: 0 <= j < i ==> !At(s, pat, j)
    ensures Find(s, pat) == Some(i)
  {
  }

  /** The text before the first blank, or all of it. */
  function FirstWord(s: string): string {
    match Find(s, " ")
    case None => s
    case Some(i) => s[..i]
  }

  /** `std::getline` on a stream that is not at its end: the line and what follows. */
  function GetLine(s: string): (r: (string, string))
    requires s != ""
    ensures |r.1| < |s|
  {
    match Find(s, "\n")
    case None => (s, "")
    case Some(i) => (s[..i], s[i + 1..])
  }

  /** What `strtoul` skips before a number. */
  predicate IsSpace(c: char) {
    c == ' ' || 9 <= c as int <= 13
  }

  function AfterSpaces(t: string): string {
    if t != "" && IsSpace(t[0]) then AfterSpaces(t[1..]) else t
  }

  /** What C calls white space, by character codes. */
  predicate Spaces(s: string) {
    forall i :: 0 <= i < |s| ==> s[i] as int == 32 || 9 <= s[i] as int <= 13
  }

  lemma {:induction false} SpacesSkipped(gap: string, t: string)
    requires Spaces(gap) && t != "" && t[0] as int != 32 && !(9 <= t[0] as int <= 13)
    ensures AfterSpaces(gap + t) == t
  {
    if gap == "" {
      assert gap + t == t;
    } else {
      assert (gap + t)[1..] == gap[1..] + t;
      SpacesSkipped(gap[1..], t);
    }
  }

  /** All pieces, in order. */
  function Concat(chunks: seq<string>): string {
    if chunks == [] then "" else Concat(chunks[..|chunks| - 1]) + chunks[|chunks| - 1]
  }

  // ----- std::set<std::string> in iteration order -----

  predicate Less(a: string, b: string) {
    b != "" && (a == "" || a[0] < b[0] || (a[0] == b[0] && Less(a[1..], b[1..])))
  }

  lemma {:induction false} LessOrders(a: string, b: string)
    ensures !(Less(a, b) && Less(b, a)) && (a == b || Less(a, b) || Less(b, a))
  {
    if a != "" && b != "" && a[0] == b[0] {
      LessOrders(a[1..], b[1..]);
      assert a == [a[0]] + a[1..] && b == [b[0]] + b[1..];
    }
  }

  lemma {:induction false} LessTransitive(a: string, b: string, c: string)
    requires Less(a, b) && Less(b, c)
    ensures Less(a, c)
  {
    if a != "" && a[0] == b[0] == c[0] {
      LessTransitive(a[1..], b[1..], c[1..]);
    }
  }

  /** The order is that of the first difference, and a prefix comes first. */
  lemma {:induction false} LessByFirstDifference(a: string, b: string, i: nat)
    requires i <= |a| && i <= |b| && a[..i] == b[..i]
    ensures i == |a| < |b| ==> Less(a, b)
    ensures i < |a| && i < |b| && a[i] as int < b[i] as int ==> Less(a, b)
  {
    if i == 0 {
    } else {
      assert a[0] == a[..i][0] && b[0] == b[..i][0];
      assert a[1..][..i - 1] == a[..i][1..] && b[1..][..i - 1] == b[..i][1..];
      LessByFirstDifference(a[1..], b[1..], i - 1);
    }
  }

  predicate IsFirst(k: string, keys: set<string>) {
    k in keys && forall x :: x in keys && x != k ==> Less(k, x)
  }

  lemma {:induction false} SomeFirst(keys: set<string>) returns (k: string)
    requires keys != {}
    ensures IsFirst(k, keys)
  {
    var y :| y in keys;
    var rest := keys - {y};
    k := y;
    assert forall x :: x in keys ==> x == y || x in rest;
    if rest == {} {
    } else {
      var z := SomeFirst(rest);
      LessOrders(y, z);
      if Less(z, y) {
        k := z;
      } else {
        forall x | x in rest && x != z ensures Less(y, x) {
          LessTransitive(y, z, x);
        }
      }
    }
  }

  lemma OneFirst(keys: set<string>)
    requires keys != {}
    ensures exists k :: IsFirst(k, keys)
    ensures forall a, b :: IsFirst(a, keys) && IsFirst(b, keys) ==> a == b
  {
    var k := SomeFirst(keys);
    forall a | IsFirst(a, keys) ensures a == k {
      LessOrders(a, k);
    }
  }

  function InOrder(keys: set<string>): seq<string>
    decreases |keys|
  {
    if keys == {} then []
    else
      OneFirst(keys);
      var k :| IsFirst(k, keys);
      [k] + InOrder(keys - {k})
  }

  lemma InOrderStep(keys: set<string>, k: string)
    requires keys != {} && IsFirst(k, keys)
    ensures InOrder(keys) == [k] + InOrder(keys - {k})
  {
    hide IsFirst;
    OneFirst(keys);
  }

  lemma {:induction false} InOrderIs(keys: set<string>)
    ensures forall k :: k in InOrder(keys) <==> k in keys
    ensures forall i, j :: 0 <= i < j < |InOrder(keys)| ==> Less(InOrder(keys)[i], InOrder(keys)[j])
    decreases |keys|
  {
    if keys == {} {
    } else {
      hide InOrder, Less;
      var k := SomeFirst(keys);
      var rest := InOrder(keys - {k});
      InOrderStep(keys, k);
      InOrderIs(keys - {k});
      assert forall j :: 0 <= j < |rest| ==> rest[j] in rest;
    }
  }

  lemma InOrderDistinct(keys: set<string>)
    ensures forall i, j :: 0 <= i < j < |InOrder(keys)| ==> InOrder(keys)[i] != InOrder(keys)[j]
  {
    InOrderIs(keys);
    forall i, j | 0 <= i < j < |InOrder(keys)| ensures InOrder(keys)[i] != InOrder(keys)[j] {
      LessOrders(InOrder(keys)[i], InOrder(keys)[j]);
    }
  }
}
