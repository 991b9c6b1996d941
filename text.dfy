/** String helpers shared by the Kotlin and JavaScript code: whitespace
    trimming, searching, splitting and joining, ASCII lower-casing and
    decimal rendering of integers. */
module Text {
  import opened Wrappers

  /** The ASCII whitespace characters. */
  predicate IsWhitespace(c: char) {
    c == ' ' || c == '\t' || c == '\n' || c == '\r' || c == '\U{B}' || c == '\U{C}'
  }

  /** Kotlin's `isBlank`: empty or only whitespace. */
  predicate IsBlank(s: string) {
    forall i | 0 <= i < |s| :: IsWhitespace(s[i])
  }

  /** The index of the first non-whitespace character at or after `i`, or
      `|s|`. */
  function BlankPrefixEnd(s: string, i: nat): (n: nat)
    requires i <= |s|
    decreases |s| - i
    ensures i <= n <= |s|
    ensures forall k | i <= k < n :: IsWhitespace(s[k])
    ensures n < |s| ==> !IsWhitespace(s[n])
  {
    if i < |s| && IsWhitespace(s[i]) then BlankPrefixEnd(s, i + 1) else i
  }

  /** The index just after the last non-whitespace character before `j`,
      or 0. */
  function BlankSuffixStart(s: string, j: nat): (n: nat)
    requires j <= |s|
    ensures n <= j
    ensures forall k | n <= k < j :: IsWhitespace(s[k])
    ensures n > 0 ==> !IsWhitespace(s[n - 1])
  {
    if j > 0 && IsWhitespace(s[j - 1]) then BlankSuffixStart(s, j - 1) else j
  }

  /** Drops the leading whitespace. */
  function TrimStart(s: string): (r: string)
    ensures |r| <= |s| && r == s[|s| - |r|..]
    ensures IsBlank(s[..|s| - |r|])
    ensures r == [] || !IsWhitespace(r[0])
  {
    var n := BlankPrefixEnd(s, 0);
    assert forall k | 0 <= k < n :: s[..n][k] == s[k];
    s[n..]
  }

  /** Drops the trailing whitespace. */
  function TrimEnd(s: string): (r: string)
    ensures |r| <= |s| && r == s[..|r|]
    ensures IsBlank(s[|r|..])
    ensures r == [] || !IsWhitespace(r[|r| - 1])
  {
    var n := BlankSuffixStart(s, |s|);
    assert forall k | 0 <= k < |s| - n :: s[n..][k] == s[n + k];
    s[..n]
  }

  /** Kotlin's `trim()`. */
  function Trim(s: string): (r: string)
    ensures |r| <= |s|
    ensures r == [] || (!IsWhitespace(r[0]) && !IsWhitespace(r[|r| - 1]))
  {
    TrimEnd(TrimStart(s))
  }

  /** What `Trim` removes is blank on both sides, and what it keeps is a slice of `s`. */
  lemma TrimSlice(s: string)
    ensures var a := |s| - |TrimStart(s)|;
      && a + |Trim(s)| <= |s|
      && Trim(s) == s[a..a + |Trim(s)|]
      && IsBlank(s[..a]) && IsBlank(s[a + |Trim(s)|..])
  {
    var t := TrimStart(s);
    var a := |s| - |t|;
    var r := TrimEnd(t);
    assert r == t[..|r|];
    assert s[a + |r|..] == t[|r|..];
  }

  lemma TrimStartEmptyIffBlank(s: string)
    ensures TrimStart(s) == [] <==> IsBlank(s)
  {
  }

  lemma TrimEndEmptyIffBlank(s: string)
    ensures TrimEnd(s) == [] <==> IsBlank(s)
  {
  }

  /** A string trims to nothing exactly when it is blank. */
  lemma TrimEmptyIffBlank(s: string)
    ensures Trim(s) == [] <==> IsBlank(s)
  {
    var t := TrimStart(s);
    TrimStartEmptyIffBlank(s);
    TrimEndEmptyIffBlank(t);
    assert IsBlank(s[..|s| - |t|]);
    assert s == s[..|s| - |t|] + t;
    if IsBlank(t) {
      assert s[..|s| - |t|] == s;
    }
  }

  /** `Count(s, c)` is the number of occurrences of `c` in `s`. */
  function Count(s: string, c: char): nat
  {
    if s == [] then 0 else Count(s[..|s| - 1], c) + (if s[|s| - 1] == c then 1 else 0)
  }

  lemma {:induction false} CountAppend(a: string, b: string, c: char)
    ensures Count(a + b, c) == Count(a, c) + Count(b, c)
  {
    if b != [] {
      assert (a + b)[..|a + b| - 1] == a + b[..|b| - 1];
      CountAppend(a, b[..|b| - 1], c);
    } else {
      assert a + b == a;
    }
  }

  lemma {:induction false} CountAbsent(s: string, c: char)
    requires c !in s
    ensures Count(s, c) == 0
  {
    if s != [] {
      assert c !in s[..|s| - 1];
      CountAbsent(s[..|s| - 1], c);
    }
  }

  /** Index of the last `c` in `s`, or -1 (Kotlin and JavaScript `lastIndexOf`). */
  function LastIndexOf(s: string, c: char): (r: int)
    ensures -1 <= r < |s|
    ensures r >= 0 ==> s[r] == c
    ensures forall k | r < k < |s| :: s[k] != c
  {
    if s == [] then -1
    else if s[|s| - 1] == c then |s| - 1
    else LastIndexOf(s[..|s| - 1], c)
  }

  /** Kotlin's `substringAfterLast(c)`: the whole string when `c` is absent. */
  function SubstringAfterLast(s: string, c: char): (r: string)
    ensures c !in r
    ensures c !in s ==> r == s
    ensures c in s ==> |r| < |s| && s == s[..|s| - |r| - 1] + [c] + r
  {
    var k := LastIndexOf(s, c);
    if k < 0 then
      assert c !in s by { forall i | 0 <= i < |s| ensures s[i] != c { } }
      s
    else
      var r := s[k + 1..];
      assert forall i | 0 <= i < |r| :: r[i] == s[k + 1 + i];
      assert c !in r;
      assert s[..|s| - |r| - 1] == s[..k];
      assert s == s[..k] + [c] + r;
      r
  }

  /** Kotlin's `substringBeforeLast(c)`: the whole string when `c` is absent. */
  function SubstringBeforeLast(s: string, c: char): (r: string)
    ensures c !in s ==> r == s
    ensures c in s ==> |r| < |s| && exists t :: c !in t && s == r + [c] + t
  {
    var k := LastIndexOf(s, c);
    if k < 0 then
      assert c !in s by { forall i | 0 <= i < |s| ensures s[i] != c { } }
      s
    else
      assert s == s[..k] + [c] + s[k + 1..];
      assert c !in s[k + 1..];
      s[..k]
  }

  lemma LastIndexOfSplit(head: string, c: char, tail: string)
    requires c !in tail
    ensures LastIndexOf(head + [c] + tail, c) == |head|
  {
    var s := head + [c] + tail;
    var r := LastIndexOf(s, c);
    assert s[|head|] == c;
  }

  /** The text after the last `c`, when `c` is followed by `tail` alone. */
  lemma SubstringAfterLastSplit(head: string, c: char, tail: string)
    requires c !in tail
    ensures SubstringAfterLast(head + [c] + tail, c) == tail
    ensures SubstringBeforeLast(head + [c] + tail, c) == head
  {
    LastIndexOfSplit(head, c, tail);
    var s := head + [c] + tail;
    assert s[|head| + 1..] == tail && s[..|head|] == head;
  }

  /** `sub` occurs in `s` at index `i`. */
  predicate OccursAt(s: string, sub: string, i: int) {
    0 <= i && i + |sub| <= |s| && s[i..i + |sub|] == sub
  }

  function IndexOfFrom(s: string, sub: string, from: nat): (r: int)
    decreases |s| - from
    ensures r == -1 || (from <= r && OccursAt(s, sub, r))
    ensures r >= 0 ==> forall k | from <= k < r :: !OccursAt(s, sub, k)
    ensures r == -1 ==> forall k | from <= k :: !OccursAt(s, sub, k)
  {
    if from + |sub| > |s| then -1
    else if s[from..from + |sub|] == sub then from
    else IndexOfFrom(s, sub, from + 1)
  }

  /** Index of the first occurrence of `sub` in `s`, or -1 (`indexOf`). */
  function IndexOf(s: string, sub: string): (r: int)
    ensures r == -1 || OccursAt(s, sub, r)
    ensures r >= 0 ==> forall k | 0 <= k < r :: !OccursAt(s, sub, k)
    ensures r == -1 <==> forall k :: !OccursAt(s, sub, k)
  {
    IndexOfFrom(s, sub, 0)
  }

  /** Kotlin `contains` / JavaScript `includes` on strings. */
  predicate Contains(s: string, sub: string) {
    IndexOf(s, sub) >= 0
  }

  predicate EndsWith(s: string, suffix: string) {
    |suffix| <= |s| && s[|s| - |suffix|..] == suffix
  }

  /** JavaScript `split(c)`: the pieces between the occurrences of `c`. */
  function Split(s: string, c: char): (parts: seq<string>)
    ensures |parts| >= 1
    ensures forall i | 0 <= i < |parts| :: c !in parts[i]
    ensures Join(parts, c) == s
    ensures parts[|parts| - 1] == SubstringAfterLast(s, c)
  {
    var k := LastIndexOf(s, c);
    if k < 0 then
      assert c !in s by { forall i | 0 <= i < |s| ensures s[i] != c { } }
      [s]
    else
      var front := Split(s[..k], c);
      var parts := front + [s[k + 1..]];
      assert parts[..|parts| - 1] == front;
      assert s == s[..k] + [c] + s[k + 1..];
      parts
  }

  /** JavaScript `join(c)`: the pieces with one `c` between neighbours. */
  function Join(parts: seq<string>, c: char): string
  {
    if |parts| == 0 then ""
    else if |parts| == 1 then parts[0]
    else Join(parts[..|parts| - 1], c) + [c] + parts[|parts| - 1]
  }

  /** Joining pieces free of the separator gives one separator fewer than pieces. */
  lemma {:induction false} CountJoin(parts: seq<string>, c: char)
    requires |parts| >= 1
    requires forall i | 0 <= i < |parts| :: c !in parts[i]
    ensures Count(Join(parts, c), c) == |parts| - 1
  {
    if |parts| == 1 {
      CountAbsent(parts[0], c);
    } else {
      var front := parts[..|parts| - 1];
      CountJoin(front, c);
      CountAppend(Join(front, c) + [c], parts[|parts| - 1], c);
      CountAppend(Join(front, c), [c], c);
      assert [c][..0] == [];
      CountAbsent(parts[|parts| - 1], c);
    }
  }

  /** The number of separators in `s` is one less than the number of pieces. */
  lemma SplitCount(s: string, c: char)
    ensures Count(s, c) == |Split(s, c)| - 1
  {
    CountJoin(Split(s, c), c);
  }

  /** Splitting joined pieces that are free of the separator gives the pieces back. */
  lemma {:induction false} SplitJoin(parts: seq<string>, c: char)
    requires |parts| >= 1
    requires forall i | 0 <= i < |parts| :: c !in parts[i]
    ensures Split(Join(parts, c), c) == parts
  {
    if |parts| == 1 {
      assert LastIndexOf(parts[0], c) < 0;
    } else {
      var front := parts[..|parts| - 1];
      var last := parts[|parts| - 1];
      var head := Join(front, c);
      assert Join(parts, c) == head + [c] + last;
      SplitJoin(front, c);
      SplitAtLast(head, c, last);
      FrontLast(parts);
    }
  }

  lemma FrontLast<T>(s: seq<T>)
    requires |s| >= 1
    ensures s[..|s| - 1] + [s[|s| - 1]] == s
  {
  }

  /** Splitting at the last separator: the pieces of the text before it,
      then the text after it. */
  lemma SplitAtLast(head: string, c: char, tail: string)
    requires c !in tail
    ensures Split(head + [c] + tail, c) == Split(head, c) + [tail]
  {
    var s := head + [c] + tail;
    LastIndexOfSplit(head, c, tail);
    assert s[..|head|] == head;
    assert s[|head| + 1..] == tail;
  }

  /** Kotlin `split(sep, limit = 2)`: the text before and after the first `sep`. */
  function SplitOnce(s: string, sep: string): (r: Option<(string, string)>)
    ensures r.None? <==> forall k :: !OccursAt(s, sep, k)
    ensures r.Some? ==> exists i :: (&& OccursAt(s, sep, i)
                                     && (forall k | 0 <= k < i :: !OccursAt(s, sep, k))
                                     && r.value.0 == s[..i] && r.value.1 == s[i + |sep|..])
  {
    var i := IndexOf(s, sep);
    if i < 0 then None
    else
      var parts := (s[..i], s[i + |sep|..]);
      assert OccursAt(s, sep, i) && parts.0 == s[..i] && parts.1 == s[i + |sep|..];
      Some(parts)
  }

  /** ASCII lower-casing of one character. */
  function LowerChar(c: char): char {
    if 'A' <= c <= 'Z' then (c as int - 'A' as int + 'a' as int) as char else c
  }

  /** ASCII lower-casing of a string, character by character. */
  function Lower(s: string): (r: string)
    ensures |r| == |s|
    ensures forall i | 0 <= i < |s| :: r[i] == LowerChar(s[i])
  {
    seq(|s|, i requires 0 <= i < |s| => LowerChar(s[i]))
  }

  function DigitChar(d: nat): char
    requires d < 10
  {
    ['0', '1', '2', '3', '4', '5', '6', '7', '8', '9'][d]
  }

  predicate IsDigit(c: char) {
    '0' <= c <= '9'
  }

  /** The value of a string of decimal digits. */
  function DigitsValue(s: string): nat
    requires forall i | 0 <= i < |s| :: IsDigit(s[i])
  {
    if s == [] then 0
    else
      assert IsDigit(s[|s| - 1]);
      10 * DigitsValue(s[..|s| - 1]) + (s[|s| - 1] as int - '0' as int)
  }

  /** Decimal rendering of a natural number, as Kotlin and JavaScript print it. */
  function NatToString(n: nat): (r: string)
    ensures |r| >= 1 && forall i | 0 <= i < |r| :: IsDigit(r[i])
    ensures |r| > 1 ==> r[0] != '0'
  {
    if n < 10 then [DigitChar(n)] else NatToString(n / 10) + [DigitChar(n % 10)]
  }

  /** Rendering a natural number and reading it back gives the number. */
  lemma {:induction false} NatToStringValue(n: nat)
    ensures DigitsValue(NatToString(n)) == n
  {
    if n >= 10 {
      NatToStringValue(n / 10);
      var r := NatToString(n);
      assert r[..|r| - 1] == NatToString(n / 10);
    }
  }

  /** Decimal rendering of an integer, with a leading `-` when negative. */
  function IntToString(i: int): (r: string)
    ensures |r| >= 1
    ensures i < 0 <==> r[0] == '-'
    ensures i >= 0 ==> r == NatToString(i)
    ensures i < 0 ==> r[1..] == NatToString(-i)
  {
    if i < 0 then "-" + NatToString(-i) else NatToString(i)
  }
}
