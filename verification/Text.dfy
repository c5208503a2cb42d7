/** The string operations of Go's `strings` package that the gateway uses.
    A Go string is a byte sequence; here each `char` stands for one byte. */
module Text {

  /** Position of the first `c` in `s`, or -1. */
  function IndexOf(s: string, c: char): (i: int)
    ensures -1 <= i < |s|
    ensures i == -1 <==> c !in s
    ensures 0 <= i ==> s[i] == c && c !in s[..i]
  {
    if s == "" then -1
    else if s[0] == c then 0
    else
      var r := IndexOf(s[1..], c);
      assert s == [s[0]] + s[1..];
      if r < 0 then -1 else
        assert s[..r + 1] == [s[0]] + s[1..][..r];
        r + 1
  }

  /** Position of the last `c` in `s`, or -1. */
  function LastIndexOf(s: string, c: char): (i: int)
    ensures -1 <= i < |s|
    ensures i == -1 <==> c !in s
    ensures 0 <= i ==> s[i] == c && c !in s[i + 1..]
  {
    if s == "" then -1
    else if s[|s| - 1] == c then |s| - 1
    else
      var r := LastIndexOf(s[..|s| - 1], c);
      assert s == s[..|s| - 1] + [s[|s| - 1]];
      assert 0 <= r ==> s[r + 1..] == s[..|s| - 1][r + 1..] + [s[|s| - 1]];
      r
  }

  /** A separator that occurs once at `i` and not before it is the first one. */
  lemma IndexOfIs(s: string, c: char, i: nat)
    requires i < |s| && s[i] == c && c !in s[..i]
    ensures IndexOf(s, c) == i
  {
    var r := IndexOf(s, c);
    assert forall k :: 0 <= k < i ==> s[k] == s[..i][k];
    assert forall k :: 0 <= k < r ==> s[k] == s[..r][k];
  }

  lemma LastIndexOfIs(s: string, c: char, i: nat)
    requires i < |s| && s[i] == c && c !in s[i + 1..]
    ensures LastIndexOf(s, c) == i
  {
    var r := LastIndexOf(s, c);
    assert forall k :: i < k < |s| ==> s[k] == s[i + 1..][k - i - 1];
    assert forall k :: r < k < |s| ==> s[k] == s[r + 1..][k - r - 1];
  }

  /** `sub` occurs in `s` at position `k`. */
  predicate OccursAt(s: string, sub: string, k: int) {
    0 <= k <= k + |sub| <= |s| && s[k..k + |sub|] == sub
  }

  /** Leftmost occurrence of `sub` in `s`, or -1. */
  function Index(s: string, sub: string): (i: int)
    ensures -1 <= i
    ensures 0 <= i ==> OccursAt(s, sub, i)
    ensures forall k :: OccursAt(s, sub, k) ==> 0 <= i <= k
  {
    IndexFrom(s, sub, 0)
  }

  function IndexFrom(s: string, sub: string, from: nat): (i: int)
    ensures -1 <= i
    ensures 0 <= i ==> from <= i && OccursAt(s, sub, i)
    ensures forall k :: from <= k && OccursAt(s, sub, k) ==> 0 <= i <= k
    decreases |s| - from
  {
    if from + |sub| > |s| then -1
    else if OccursAt(s, sub, from) then from
    else if from == |s| then -1
    else IndexFrom(s, sub, from + 1)
  }

  predicate HasSuffix(s: string, suffix: string) {
    |suffix| <= |s| && s[|s| - |suffix|..] == suffix
  }

  /** All the pieces of `s` between occurrences of `sep`. */
  function Split(s: string, sep: char): (parts: seq<string>)
    ensures |parts| >= 1
    ensures forall p :: p in parts ==> sep !in p
  {
    if s == "" then [""]
    else
      var r := Split(s[1..], sep);
      if s[0] == sep then [""] + r else [[s[0]] + r[0]] + r[1..]
  }

  datatype CutResult = CutResult(before: string, after: string, found: bool)

  /** `strings.Cut` around the first separator. */
  function Cut(s: string, sep: char): (r: CutResult)
    ensures r.found <==> sep in s
    ensures r.found ==> s == r.before + [sep] + r.after && sep !in r.before
    ensures !r.found ==> r == CutResult(s, "", false)
  {
    var i := IndexOf(s, sep);
    if i < 0 then CutResult(s, "", false) else CutResult(s[..i], s[i + 1..], true)
  }

  /** The first separator is the one right after a separator-free head. */
  lemma CutOf(head: string, sep: char, tail: string)
    requires sep !in head
    ensures Cut(head + [sep] + tail, sep) == CutResult(head, tail, true)
  {
    var s := head + [sep] + tail;
    assert s[..|head|] == head && s[|head|] == sep && s[|head| + 1..] == tail;
    IndexOfIs(s, sep, |head|);
  }

  /** The last separator is the one right before a separator-free tail. */
  lemma LastIndexOfTail(head: string, sep: char, tail: string)
    requires sep !in tail
    ensures var s := head + [sep] + tail;
            LastIndexOf(s, sep) == |head| && s[..|head|] == head && s[|head| + 1..] == tail
  {
    var s := head + [sep] + tail;
    assert s[|head|] == sep && s[|head| + 1..] == tail;
    LastIndexOfIs(s, sep, |head|);
  }

  /** `strings.SplitN(s, sep, 3)`. */
  function Split3(s: string, sep: char): (parts: seq<string>)
    ensures 1 <= |parts| <= 3
  {
    var a := Cut(s, sep);
    if !a.found then [s] else
      var b := Cut(a.after, sep);
      if !b.found then [a.before, a.after] else [a.before, b.before, b.after]
  }

  /** ASCII white space. */
  predicate IsSpace(c: char) {
    c == ' ' || c == '\t' || c == '\n' || c == '\r' || c == 11 as char || c == 12 as char
  }

  /** The UTF-8 encodings of the other white space of `unicode.IsSpace`. */
  predicate WideSpace(b: string) {
    || (|b| == 2 && b[0] as int == 0xC2 && b[1] as int in {0x85, 0xA0})
    || (|b| == 3 && b[0] as int == 0xE1 && b[1] as int == 0x9A && b[2] as int == 0x80)
    || (|b| == 3 && b[0] as int == 0xE2 && b[1] as int == 0x80 &&
        (0x80 <= b[2] as int <= 0x8A || b[2] as int in {0xA8, 0xA9, 0xAF}))
    || (|b| == 3 && b[0] as int == 0xE2 && b[1] as int == 0x81 && b[2] as int == 0x9F)
    || (|b| == 3 && b[0] as int == 0xE3 && b[1] as int == 0x80 && b[2] as int == 0x80)
  }

  /** How many bytes of white space `s` begins with, for one character of it. */
  function SpaceAt(s: string): (n: nat)
    ensures n <= |s|
  {
    if s != "" && IsSpace(s[0]) then 1
    else if |s| >= 2 && WideSpace(s[..2]) then 2
    else if |s| >= 3 && WideSpace(s[..3]) then 3
    else 0
  }

  /** How many bytes of white space `s` ends with, for one character of it. */
  function SpaceBefore(s: string): (n: nat)
    ensures n <= |s|
  {
    if s != "" && IsSpace(s[|s| - 1]) then 1
    else if |s| >= 2 && WideSpace(s[|s| - 2..]) then 2
    else if |s| >= 3 && WideSpace(s[|s| - 3..]) then 3
    else 0
  }

  function TrimLeft(s: string): (r: string)
    ensures SpaceAt(r) == 0
    decreases |s|
  {
    if SpaceAt(s) > 0 then TrimLeft(s[SpaceAt(s)..]) else s
  }

  function TrimRight(s: string): (r: string)
    ensures r <= s && SpaceBefore(r) == 0
    decreases |s|
  {
    if SpaceBefore(s) > 0 then TrimRight(s[..|s| - SpaceBefore(s)]) else s
  }

  /** `strings.TrimSpace`: neither end is white space any more. */
  function TrimSpace(s: string): (r: string)
    ensures SpaceAt(r) == 0 && SpaceBefore(r) == 0
  {
    var left := TrimLeft(s);
    var r := TrimRight(left);
    assert |r| >= 2 ==> r[..2] == left[..2];
    assert |r| >= 3 ==> r[..3] == left[..3];
    r
  }

  /** Go's `<=` on strings: lexicographic by byte. */
  predicate AtMost(a: string, b: string) {
    a == "" || (b != "" && (a[0] < b[0] || (a[0] == b[0] && AtMost(a[1..], b[1..]))))
  }

  predicate Less(a: string, b: string) { a != b && AtMost(a, b) }

  lemma {:induction false} AtMostTotal(a: string, b: string)
    ensures AtMost(a, b) || AtMost(b, a)
    ensures AtMost(a, b) && AtMost(b, a) ==> a == b
  {
    if a != "" && b != "" {
      AtMostTotal(a[1..], b[1..]);
      assert a == [a[0]] + a[1..] && b == [b[0]] + b[1..];
    }
  }

  lemma {:induction false} AtMostTransitive(a: string, b: string, c: string)
    requires AtMost(a, b) && AtMost(b, c)
    ensures AtMost(a, c)
  {
    if a != "" && a[0] == b[0] && b[0] == c[0] { AtMostTransitive(a[1..], b[1..], c[1..]); }
  }

  /** `!(a < b)` read the other way round, for every pair of strings. */
  lemma NotLess(a: string, b: string)
    ensures !Less(a, b) <==> AtMost(b, a)
  {
    AtMostTotal(a, b);
  }
}
