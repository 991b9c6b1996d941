/** The on-device search (SongSearchRepository.kt): the two bucket listings
    returned by the search worker are filtered into matches, every melody is
    paired with its most similar MIDI file by title, and the pairs are scored
    against the query, de-duplicated by song id, ranked and cut to 30.  The
    two fetched JSON documents are parameters. */
module SongSearch {
  import opened Wrappers
  import opened Text
  import SongModel
  import Utf8
  import Sorting
  import Seqs

  datatype Match = Match(key: string, url: string)
  datatype Candidate = Candidate(song: SongModel.Song, score: real)

  /** One element of the `matches` array as `optJSONObject` sees it: not an
      object, or an object whose `url` and `key` members are absent (`None`)
      or hold the text `optString` renders for them. */
  datatype MatchEntry = NotAnObject | Entry(url: Option<string>, key: Option<string>)

  const MelodyLimit := 50
  const MidiLimit := 80
  const ResultLimit := 30
  const MinPairSimilarity := 0.3

  function Min(a: int, b: int): int { if a <= b then a else b }
  function Max(a: int, b: int): int { if a >= b then a else b }
  function Min3(x: int, y: int, z: int): int {
    if x <= y && x <= z then x else if y <= z then y else z
  }

  /** Kotlin `take(n)`: the first `n` elements, or all of them. */
  function Take<T>(s: seq<T>, n: nat): seq<T> {
    s[..Min(n, |s|)]
  }

  // ---------------------------------------------------------------------
  // Parsing the worker's answer

  /** The match an entry contributes: objects whose `url` and `key` (read
      with default "") are both non-blank. */
  function EntryMatch(e: MatchEntry): Option<Match> {
    if e.NotAnObject? then None
    else
      var url := e.url.GetOr("");
      var key := e.key.GetOr("");
      if !IsBlank(url) && !IsBlank(key) then Some(Match(key, url)) else None
  }

  /** The entries' matches, in order. */
  function Kept(es: seq<MatchEntry>): seq<Match> {
    Seqs.FilterMap(es, EntryMatch)
  }

  /** The matches of a document; a missing `matches` array gives none. */
  function Matches(doc: Option<seq<MatchEntry>>): seq<Match> {
    if doc.None? then [] else Kept(doc.value)
  }

  /** Exactly the entries that are objects with a non-blank url and key are
      kept: every kept match is such an entry's, and every such entry's
      match is kept. */
  lemma KeptShape(es: seq<MatchEntry>)
    ensures |Kept(es)| <= |es|
    ensures forall m | m in Kept(es) :: !IsBlank(m.url) && !IsBlank(m.key)
    ensures forall m | m in Kept(es) :: exists i | 0 <= i < |es| :: EntryMatch(es[i]) == Some(m)
    ensures forall i | 0 <= i < |es| :: EntryMatch(es[i]).Some? <==>
              es[i].Entry? && !IsBlank(es[i].url.GetOr("")) && !IsBlank(es[i].key.GetOr(""))
    ensures forall i | 0 <= i < |es| && EntryMatch(es[i]).Some? :: EntryMatch(es[i]).value in Kept(es)
  {
    Seqs.FilterMapShape(es, EntryMatch);
    forall m | m in Kept(es) ensures !IsBlank(m.url) && !IsBlank(m.key) {
      var i :| 0 <= i < |es| && EntryMatch(es[i]) == Some(m);
    }
  }

  /** `parseMatches`: the loop over the array. */
  method ParseMatches(doc: Option<seq<MatchEntry>>) returns (out: seq<Match>)
    ensures out == Matches(doc)
  {
    if doc.None? {
      return [];
    }
    var arr := doc.value;
    out := [];
    for i := 0 to |arr|
      invariant out == Kept(arr[..i])
    {
      assert arr[..i + 1][..i] == arr[..i];
      var e := arr[i];
      if e.NotAnObject? {
        continue;
      }
      var url := e.url.GetOr("");
      var key := e.key.GetOr("");
      if !IsBlank(url) && !IsBlank(key) {
        out := out + [Match(key, url)];
      }
    }
    assert arr[..|arr|] == arr;
  }

  // ---------------------------------------------------------------------
  // Titles and their normal form

  /** `titleFromKey`: the last path segment without its extension, or the
      whole key when that is blank. */
  function TitleFromKey(key: string): string {
    var t := SubstringBeforeLast(SubstringAfterLast(key, '/'), '.');
    if IsBlank(t) then key else t
  }

  /** A key `dir/name.ext` names `name`. */
  lemma TitleOfPathKey(dir: string, name: string, ext: string)
    requires '/' !in name && '/' !in ext && '.' !in ext && !IsBlank(name)
    ensures TitleFromKey(dir + "/" + name + "." + ext) == name
  {
    var last := name + "." + ext;
    assert dir + "/" + name + "." + ext == dir + ['/'] + last;
    assert '/' !in last;
    SubstringAfterLastSplit(dir, '/', last);
    SubstringAfterLastSplit(name, '.', ext);
  }

  /** The result is the key itself or one segment of it: non-blank and
      free of `/`. */
  lemma TitleFromKeyShape(key: string)
    ensures var r := TitleFromKey(key);
            r == key || ('/' !in r && !IsBlank(r))
  {
    var last := SubstringAfterLast(key, '/');
    var t := SubstringBeforeLast(last, '.');
    if '.' in last {
      var u :| '.' !in u && last == t + ['.'] + u;
      assert forall i | 0 <= i < |t| :: t[i] == last[i];
    }
  }

  /** The characters the second `replace` keeps: `[0-9a-zA-Z가-힣]`. */
  predicate IsAllowed(c: char) {
    ('0' <= c <= '9') || ('a' <= c <= 'z') || ('A' <= c <= 'Z') || ('\U{AC00}' <= c <= '\U{D7A3}')
  }

  /** The characters of a normal form: digits, lower-case letters, Hangul. */
  predicate IsNormal(c: char) {
    ('0' <= c <= '9') || ('a' <= c <= 'z') || ('\U{AC00}' <= c <= '\U{D7A3}')
  }

  /** Removes the `\s` characters (space, tab, line feed, vertical tab, form
      feed, carriage return). */
  function DropSpaces(s: string): (r: string)
    ensures |r| <= |s|
    ensures forall c :: c in r <==> c in s && !IsWhitespace(c)
    ensures (forall i | 0 <= i < |s| :: !IsWhitespace(s[i])) ==> r == s
  {
    if s == [] then []
    else if IsWhitespace(s[0]) then DropSpaces(s[1..])
    else [s[0]] + DropSpaces(s[1..])
  }

  /** Removes every character outside `[0-9a-zA-Z가-힣]`. */
  function KeepAllowed(s: string): (r: string)
    ensures |r| <= |s|
    ensures forall c :: c in r <==> c in s && IsAllowed(c)
    ensures (forall i | 0 <= i < |s| :: IsAllowed(s[i])) ==> r == s
  {
    if s == [] then []
    else if IsAllowed(s[0]) then [s[0]] + KeepAllowed(s[1..])
    else KeepAllowed(s[1..])
  }

  /** Each character is judged alone, so dropping white space commutes
      with concatenation: the survivors keep their order. */
  lemma {:induction false} DropSpacesAppend(a: string, b: string)
    ensures DropSpaces(a + b) == DropSpaces(a) + DropSpaces(b)
  {
    if a == [] {
      assert a + b == b;
    } else {
      assert (a + b)[1..] == a[1..] + b;
      DropSpacesAppend(a[1..], b);
    }
  }

  /** The same for the second `replace`. */
  lemma {:induction false} KeepAllowedAppend(a: string, b: string)
    ensures KeepAllowed(a + b) == KeepAllowed(a) + KeepAllowed(b)
  {
    if a == [] {
      assert a + b == b;
    } else {
      assert (a + b)[1..] == a[1..] + b;
      KeepAllowedAppend(a[1..], b);
    }
  }

  /** `normalize`: lower-case, drop whitespace, keep `[0-9a-zA-Z가-힣]`. */
  function Normalize(s: string): string {
    KeepAllowed(DropSpaces(Lower(s)))
  }

  lemma {:induction false} DropSpacesOfNormal(s: string)
    requires forall i | 0 <= i < |s| :: IsNormal(s[i])
    ensures DropSpaces(s) == s
  {
    if s != [] {
      DropSpacesOfNormal(s[1..]);
    }
  }

  lemma {:induction false} KeepAllowedOfNormal(s: string)
    requires forall i | 0 <= i < |s| :: IsNormal(s[i])
    ensures KeepAllowed(s) == s
  {
    if s != [] {
      KeepAllowedOfNormal(s[1..]);
    }
  }

  /** Whitespace is not allowed anyway, so the first `replace` changes
      nothing the second would keep. */
  lemma {:induction false} KeepAllowedDropSpaces(s: string)
    ensures KeepAllowed(DropSpaces(s)) == KeepAllowed(s)
  {
    if s != [] {
      KeepAllowedDropSpaces(s[1..]);
    }
  }

  lemma {:induction false} KeepAllowedOfLower(s: string)
    requires forall i | 0 <= i < |s| :: !('A' <= s[i] <= 'Z')
    ensures forall i | 0 <= i < |KeepAllowed(s)| :: IsNormal(KeepAllowed(s)[i])
  {
    if s != [] {
      KeepAllowedOfLower(s[1..]);
    }
  }

  /** Normalising works character by character: a text's normal form is the
      normal forms of its parts, and one character is kept, lower-cased,
      exactly when its lower-case form is allowed. */
  lemma {:induction false} NormalizeAppend(a: string, b: string)
    ensures Normalize(a + b) == Normalize(a) + Normalize(b)
    ensures forall c :: Normalize([c]) == if IsAllowed(LowerChar(c)) then [LowerChar(c)] else []
  {
    assert Lower(a + b) == Lower(a) + Lower(b);
    DropSpacesAppend(Lower(a), Lower(b));
    KeepAllowedAppend(DropSpaces(Lower(a)), DropSpaces(Lower(b)));
    forall c ensures Normalize([c]) == if IsAllowed(LowerChar(c)) then [LowerChar(c)] else [] {
      assert Lower([c]) == [LowerChar(c)];
      assert [LowerChar(c)][1..] == [];
    }
  }

  /** A normal form holds only digits, lower-case ASCII letters and Hangul
      syllables, and normalising it again changes nothing. */
  lemma NormalizeShape(s: string)
    ensures forall i | 0 <= i < |Normalize(s)| :: IsNormal(Normalize(s)[i])
    ensures Normalize(Normalize(s)) == Normalize(s)
    ensures Normalize(s) == KeepAllowed(Lower(s))
  {
    var low := Lower(s);
    KeepAllowedDropSpaces(low);
    KeepAllowedOfLower(low);
    var n := Normalize(s);
    assert Lower(n) == n;
    DropSpacesOfNormal(n);
    KeepAllowedOfNormal(n);
  }

  // ---------------------------------------------------------------------
  // Edit distance

  /** Unit-cost edit distance between `a[..i]` and `b[..j]`. */
  function EditDistance(a: string, b: string, i: nat, j: nat): nat
    requires i <= |a| && j <= |b|
    decreases i + j
  {
    if i == 0 then j
    else if j == 0 then i
    else Min3(EditDistance(a, b, i - 1, j) + 1,
              EditDistance(a, b, i, j - 1) + 1,
              EditDistance(a, b, i - 1, j - 1) + (if a[i - 1] == b[j - 1] then 0 else 1))
  }

  function Distance(a: string, b: string): nat {
    EditDistance(a, b, |a|, |b|)
  }

  /** No more edits than the longer prefix has characters. */
  lemma {:induction false} EditDistanceBound(a: string, b: string, i: nat, j: nat)
    requires i <= |a| && j <= |b|
    ensures EditDistance(a, b, i, j) <= Max(i, j)
    decreases i + j
  {
    if i > 0 && j > 0 {
      EditDistanceBound(a, b, i - 1, j - 1);
    }
  }

  /** Distance zero means equal prefixes. */
  lemma {:induction false} EditDistanceZero(a: string, b: string, i: nat, j: nat)
    requires i <= |a| && j <= |b|
    requires EditDistance(a, b, i, j) == 0
    ensures i == j && a[..i] == b[..j]
    decreases i + j
  {
    if i > 0 && j > 0 {
      EditDistanceZero(a, b, i - 1, j - 1);
      assert a[..i] == a[..i - 1] + [a[i - 1]];
      assert b[..j] == b[..j - 1] + [b[j - 1]];
    }
  }

  /** Equal prefixes are at distance zero. */
  lemma {:induction false} EditDistanceSelf(a: string, i: nat)
    requires i <= |a|
    ensures EditDistance(a, a, i, i) == 0
  {
    if i > 0 {
      EditDistanceSelf(a, i - 1);
    }
  }

  /** The distance is at most the longer length, it is the other length
      when one side is empty, and it is zero exactly for equal strings. */
  lemma DistanceZeroIffEqual(a: string, b: string)
    ensures Distance(a, b) <= Max(|a|, |b|)
    ensures Distance(a, []) == |a| && Distance([], b) == |b|
    ensures Distance(a, b) == 0 <==> a == b
  {
    EditDistanceBound(a, b, |a|, |b|);
    if Distance(a, b) == 0 {
      EditDistanceZero(a, b, |a|, |b|);
      assert a == a[..|a|] && b == b[..|b|];
    }
    if a == b {
      EditDistanceSelf(a, |a|);
    }
  }

  lemma EditDistanceCell(a: string, b: string, i: nat, j: nat)
    requires 1 <= i <= |a| && 1 <= j <= |b|
    ensures EditDistance(a, b, i, j)
            == Min3(EditDistance(a, b, i - 1, j) + 1, EditDistance(a, b, i, j - 1) + 1,
                    EditDistance(a, b, i - 1, j - 1) + (if a[i - 1] == b[j - 1] then 0 else 1))
  {
  }

  /** One step of the inner loop: cell `j` of row `i` from its left,
      upper and diagonal neighbours; returns the overwritten upper cell. */
  method Cell(a: string, b: string, dp: array<int>, i: nat, j: nat, prev: int) returns (up: int)
    requires 1 <= i <= |a| && 1 <= j <= |b| && dp.Length == |b| + 1
    requires dp[j] == EditDistance(a, b, i - 1, j)
    requires dp[j - 1] == EditDistance(a, b, i, j - 1)
    requires prev == EditDistance(a, b, i - 1, j - 1)
    modifies dp
    ensures up == EditDistance(a, b, i - 1, j)
    ensures dp[j] == EditDistance(a, b, i, j)
    ensures dp[..] == old(dp[..])[j := dp[j]]
  {
    up := dp[j];
    var cost := if a[i - 1] == b[j - 1] then 0 else 1;
    EditDistanceCell(a, b, i, j);
    dp[j] := Min3(dp[j] + 1, dp[j - 1] + 1, prev + cost);
  }

  /** One pass of the outer loop of `levenshtein`: row `i - 1` of the table
      becomes row `i`, left to right. */
  method NextRow(a: string, b: string, dp: array<int>, i: nat)
    requires 1 <= i <= |a| && dp.Length == |b| + 1
    requires forall k | 0 <= k <= |b| :: dp[k] == EditDistance(a, b, i - 1, k)
    modifies dp
    ensures forall k | 0 <= k <= |b| :: dp[k] == EditDistance(a, b, i, k)
  {
    var prev := dp[0];
    dp[0] := i;
    for j := 1 to |b| + 1
      invariant forall k | 0 <= k < j :: dp[k] == EditDistance(a, b, i, k)
      invariant forall k | j <= k <= |b| :: dp[k] == EditDistance(a, b, i - 1, k)
      invariant prev == EditDistance(a, b, i - 1, j - 1)
    {
      prev := Cell(a, b, dp, i, j, prev);
    }
  }

  /** `levenshtein`: one dynamic-programming row, updated in place. */
  method Levenshtein(a: string, b: string) returns (d: int)
    ensures d == Distance(a, b)
  {
    var dp := new int[|b| + 1](k => k);
    for i := 1 to |a| + 1
      invariant forall k | 0 <= k <= |b| :: dp[k] == EditDistance(a, b, i - 1, k)
    {
      NextRow(a, b, dp, i);
    }
    d := dp[|b|];
  }

  // ---------------------------------------------------------------------
  // Similarities and the query score

  /** `similarity`: one minus the distance over the longer length. */
  function Similarity(a: string, b: string): real {
    if a == [] && b == [] then 1.0
    else if a == [] || b == [] then 0.0
    else 1.0 - Distance(a, b) as real / Max(|a|, |b|) as real
  }

  lemma RatioBounds(d: nat, m: nat)
    requires 0 < m && d <= m
    ensures 0.0 <= d as real / m as real <= 1.0
    ensures d as real / m as real == 0.0 <==> d == 0
  {
    var r := d as real / m as real;
    assert r * m as real == d as real;
  }

  /** A similarity lies in [0, 1], is 1 exactly for equal strings, and is
      0 when only one side is empty. */
  lemma SimilarityBounds(a: string, b: string)
    ensures 0.0 <= Similarity(a, b) <= 1.0
    ensures Similarity(a, b) == 1.0 <==> a == b
    ensures a != b && (a == [] || b == []) ==> Similarity(a, b) == 0.0
  {
    if a != [] && b != [] {
      DistanceZeroIffEqual(a, b);
      RatioBounds(Distance(a, b), Max(|a|, |b|));
    }
  }

  method SimilarityOf(a: string, b: string) returns (r: real)
    ensures r == Similarity(a, b)
  {
    if a == [] && b == [] {
      return 1.0;
    }
    if a == [] || b == [] {
      return 0.0;
    }
    var dist := Levenshtein(a, b);
    r := 1.0 - dist as real / Max(|a|, |b|) as real;
  }

  function Clamp(x: real, lo: real, hi: real): real {
    if x < lo then lo else if x > hi then hi else x
  }

  /** `queryTitleScore`: exact match, then containment with a bonus for a
      prefix, then plain similarity. */
  function QueryTitleScore(qNorm: string, titleNorm: string): real {
    if qNorm == [] || titleNorm == [] then 0.0
    else if qNorm == titleNorm then 1.0
    else
      var idx := IndexOf(titleNorm, qNorm);
      if idx >= 0 then
        var coverage := |qNorm| as real / |titleNorm| as real;
        var posBonus := if idx == 0 then 0.1 else 0.0;
        Clamp(0.6 + posBonus + 0.3 * coverage, 0.0, 1.0)
      else
        1.0 - Distance(qNorm, titleNorm) as real / Max(|qNorm|, |titleNorm|) as real
  }

  lemma CoverageBounds(q: nat, t: nat)
    requires 0 < q < t
    ensures 0.0 < q as real / t as real < 1.0
  {
    var r := q as real / t as real;
    assert r * t as real == q as real;
  }

  /** The score's bands: an empty side scores 0 and equality 1; a title
      that starts with the query scores in [0.7, 1), one that contains it
      later in [0.6, 0.9), so the clamp never applies; otherwise the score
      is the similarity, below 1. */
  lemma QueryTitleScoreBands(q: string, t: string)
    ensures q == [] || t == [] ==> QueryTitleScore(q, t) == 0.0
    ensures q != [] && q == t ==> QueryTitleScore(q, t) == 1.0
    ensures q != [] && q != t && OccursAt(t, q, 0) ==> 0.7 <= QueryTitleScore(q, t) < 1.0
    ensures q != [] && q != t && !OccursAt(t, q, 0) && Contains(t, q) ==> 0.6 <= QueryTitleScore(q, t) < 0.9
    ensures q != [] && t != [] && !Contains(t, q) ==> QueryTitleScore(q, t) == Similarity(q, t) < 1.0
    ensures 0.0 <= QueryTitleScore(q, t) <= 1.0
  {
    if q != [] && t != [] && q != t {
      var idx := IndexOf(t, q);
      if idx >= 0 {
        assert t[0..|t|] == t;
        CoverageBounds(|q|, |t|);
      } else {
        SimilarityBounds(q, t);
        if |q| <= |t| && q == t[0..|q|] {
          assert OccursAt(t, q, 0);
        }
      }
    }
  }

  method QueryTitleScoreOf(qNorm: string, titleNorm: string) returns (r: real)
    ensures r == QueryTitleScore(qNorm, titleNorm)
  {
    if qNorm == [] || titleNorm == [] {
      return 0.0;
    }
    if qNorm == titleNorm {
      return 1.0;
    }
    var idx := IndexOf(titleNorm, qNorm);
    if idx >= 0 {
      var coverage := |qNorm| as real / |titleNorm| as real;
      var posBonus := if idx == 0 then 0.1 else 0.0;
      return Clamp(0.6 + posBonus + 0.3 * coverage, 0.0, 1.0);
    }
    var dist := Levenshtein(qNorm, titleNorm);
    r := 1.0 - dist as real / Max(|qNorm|, |titleNorm|) as real;
  }

  // ---------------------------------------------------------------------
  // Pairing each melody with a MIDI file

  /** How similar a MIDI key's title is to the melody's normal title. */
  function SimTo(mNorm: string, x: Match): real {
    Similarity(mNorm, Normalize(TitleFromKey(x.key)))
  }

  /** The similarities of the MIDI files `xs`, in order. */
  function SimsTo(mNorm: string, xs: seq<Match>): (sims: seq<real>)
    ensures |sims| == |xs|
  {
    seq(|xs|, j requires 0 <= j < |xs| => SimTo(mNorm, xs[j]))
  }

  lemma SimsToBounds(mNorm: string, xs: seq<Match>)
    ensures forall j | 0 <= j < |xs| :: 0.0 <= SimsTo(mNorm, xs)[j] <= 1.0
  {
    forall j | 0 <= j < |xs| ensures 0.0 <= SimsTo(mNorm, xs)[j] <= 1.0 {
      SimilarityBounds(mNorm, Normalize(TitleFromKey(xs[j].key)));
    }
  }

  datatype Best<T> = Best(pick: Option<T>, sim: real)

  /** The state of a scan for the most similar element: it starts at
      (null, -1.0) and moves only on a strictly larger similarity. */
  function FirstMax<T>(xs: seq<T>, sims: seq<real>): Best<T>
    requires |sims| == |xs|
    decreases |xs|
  {
    if xs == [] then Best(None, -1.0)
    else
      var n := |xs| - 1;
      var b := FirstMax(xs[..n], sims[..n]);
      if sims[n] > b.sim then Best(Some(xs[n]), sims[n]) else b
  }

  /** With non-negative similarities and at least one element the scan
      always picks one: the first of greatest similarity. */
  lemma {:induction false} FirstMaxIsFirstMaximum<T>(xs: seq<T>, sims: seq<real>)
    requires |sims| == |xs|
    requires forall j | 0 <= j < |sims| :: 0.0 <= sims[j]
    ensures xs == [] ==> FirstMax(xs, sims) == Best(None, -1.0)
    ensures xs != [] ==> exists k | 0 <= k < |xs| ::
              && FirstMax(xs, sims) == Best(Some(xs[k]), sims[k])
              && (forall j | 0 <= j < |xs| :: sims[j] <= sims[k])
              && (forall j | 0 <= j < k :: sims[j] < sims[k])
    decreases |xs|
  {
    if xs != [] {
      var n := |xs| - 1;
      var p, ps := xs[..n], sims[..n];
      FirstMaxIsFirstMaximum(p, ps);
      if p == [] {
        assert FirstMax(xs, sims) == Best(Some(xs[0]), sims[0]);
      } else {
        var k :| 0 <= k < |p| && FirstMax(p, ps) == Best(Some(p[k]), ps[k])
                 && (forall j | 0 <= j < |p| :: ps[j] <= ps[k])
                 && (forall j | 0 <= j < k :: ps[j] < ps[k]);
        if sims[n] > ps[k] {
          assert forall j | 0 <= j < n :: sims[j] == ps[j];
        } else {
          assert xs[k] == p[k];
          assert forall j | 0 <= j < n :: sims[j] == ps[j];
        }
      }
    }
  }

  /** The scan over one more element. */
  lemma FirstMaxSnoc<T>(xs: seq<T>, sims: seq<real>, i: nat)
    requires |sims| == |xs| && i < |xs|
    ensures var b := FirstMax(xs[..i], sims[..i]);
            FirstMax(xs[..i + 1], sims[..i + 1]) == if sims[i] > b.sim then Best(Some(xs[i]), sims[i]) else b
  {
    assert xs[..i + 1][..i] == xs[..i] && sims[..i + 1][..i] == sims[..i];
  }

  /** The similarity of one MIDI file's title to the melody's. */
  method SimToOf(mNorm: string, x: Match) returns (sim: real)
    ensures sim == SimTo(mNorm, x)
  {
    var xTitle := TitleFromKey(x.key);
    sim := SimilarityOf(mNorm, Normalize(xTitle));
  }

  /** The inner `for (x in midis.take(80))` loop. */
  method BestMatch(mNorm: string, xs: seq<Match>) returns (best: Option<Match>, bestSim: real)
    ensures Best(best, bestSim) == FirstMax(xs, SimsTo(mNorm, xs))
  {
    ghost var sims := SimsTo(mNorm, xs);
    best := None;
    bestSim := -1.0;
    for i := 0 to |xs|
      invariant Best(best, bestSim) == FirstMax(xs[..i], sims[..i])
    {
      FirstMaxSnoc(xs, sims, i);
      var x := xs[i];
      var sim := SimToOf(mNorm, x);
      assert sim == sims[i];
      if sim > bestSim {
        bestSim := sim;
        best := Some(x);
      }
    }
    assert xs[..|xs|] == xs && sims[..|xs|] == sims;
  }

  // ---------------------------------------------------------------------
  // Candidates and the ranking

  /** The candidate of the melody `m` (title `mTitle`, normal form `mNorm`)
      given the outcome `b` of the scan: none when nothing was picked or
      the pick is less similar than 0.3. */
  function PairWith(q: string, qNorm: string, m: Match, mTitle: string, mNorm: string, b: Best<Match>,
                    sha1: seq<Utf8.Byte> -> seq<SongModel.SByte>): Option<Candidate>
  {
    if b.pick.None? || b.sim < MinPairSimilarity then None
    else
      var midi := b.pick.value;
      var song := SongModel.Song(SongModel.MakeId(m.url, midi.url, sha1), mTitle, m.url, midi.url, q);
      Some(Candidate(song, 0.75 * QueryTitleScore(qNorm, mNorm) + 0.25 * b.sim))
  }

  /** The candidate one melody yields, if its best MIDI file is similar
      enough. */
  function CandidateFor(q: string, qNorm: string, m: Match, xs: seq<Match>,
                        sha1: seq<Utf8.Byte> -> seq<SongModel.SByte>): Option<Candidate>
  {
    var mTitle := TitleFromKey(m.key);
    var mNorm := Normalize(mTitle);
    PairWith(q, qNorm, m, mTitle, mNorm, FirstMax(xs, SimsTo(mNorm, xs)), sha1)
  }

  /** A candidate pairs the melody with its first most similar MIDI file,
      whose similarity is at least 0.3; the song carries the melody's title
      and the query, and the score lies in [0.075, 1]. */
  lemma CandidateForShape(q: string, qNorm: string, m: Match, xs: seq<Match>,
                          sha1: seq<Utf8.Byte> -> seq<SongModel.SByte>)
    requires CandidateFor(q, qNorm, m, xs, sha1).Some?
    ensures var c := CandidateFor(q, qNorm, m, xs, sha1).value;
            var sims := SimsTo(Normalize(TitleFromKey(m.key)), xs);
            && c.song.title == TitleFromKey(m.key)
            && c.song.melodyUrl == m.url
            && c.song.queryTitle == q
            && c.song.id == SongModel.MakeId(m.url, c.song.midiUrl, sha1)
            && 0.075 <= c.score <= 1.0
            && exists k | 0 <= k < |xs| ::
                 && xs[k].url == c.song.midiUrl
                 && sims[k] >= MinPairSimilarity
                 && (forall j | 0 <= j < |xs| :: sims[j] <= sims[k])
                 && (forall j | 0 <= j < k :: sims[j] < sims[k])
  {
    var mTitle := TitleFromKey(m.key);
    var mNorm := Normalize(mTitle);
    var sims := SimsTo(mNorm, xs);
    SimsToBounds(mNorm, xs);
    FirstMaxIsFirstMaximum(xs, sims);
    var k :| 0 <= k < |xs| && FirstMax(xs, sims) == Best(Some(xs[k]), sims[k]);
    assert sims[k] <= 1.0;
    PairWithShape(q, qNorm, m, mTitle, mNorm, FirstMax(xs, sims), sha1);
  }

  /** The candidate built from a pick of similarity at most 1. */
  lemma PairWithShape(q: string, qNorm: string, m: Match, mTitle: string, mNorm: string, b: Best<Match>,
                      sha1: seq<Utf8.Byte> -> seq<SongModel.SByte>)
    requires PairWith(q, qNorm, m, mTitle, mNorm, b, sha1).Some? && b.sim <= 1.0
    ensures var c := PairWith(q, qNorm, m, mTitle, mNorm, b, sha1).value;
            && b.pick.Some? && b.sim >= MinPairSimilarity
            && c.song == SongModel.Song(SongModel.MakeId(m.url, b.pick.value.url, sha1), mTitle, m.url, b.pick.value.url, q)
            && 0.075 <= c.score <= 1.0
  {
    QueryTitleScoreBands(qNorm, mNorm);
  }

  /** The candidates of the melodies `ms`, in melody order. */
  function Candidates(q: string, qNorm: string, ms: seq<Match>, xs: seq<Match>,
                      sha1: seq<Utf8.Byte> -> seq<SongModel.SByte>): seq<Candidate>
  {
    Seqs.FilterMap(ms, m => CandidateFor(q, qNorm, m, xs, sha1))
  }

  /** Every candidate comes from one melody. */
  lemma CandidateOrigin(q: string, qNorm: string, ms: seq<Match>, xs: seq<Match>,
                        sha1: seq<Utf8.Byte> -> seq<SongModel.SByte>, c: Candidate)
    requires c in Candidates(q, qNorm, ms, xs, sha1)
    ensures exists i | 0 <= i < |ms| :: CandidateFor(q, qNorm, ms[i], xs, sha1) == Some(c)
  {
    Seqs.FilterMapShape(ms, m => CandidateFor(q, qNorm, m, xs, sha1));
  }

  function IdOf(c: Candidate): string { c.song.id }

  /** Kotlin `distinctBy { it.song.id }`, with the ids already taken. */
  function DistinctFrom(cs: seq<Candidate>, seen: set<string>): (r: seq<Candidate>)
    ensures forall c | c in r :: c in cs && IdOf(c) !in seen
    ensures Sorting.DistinctKeys(r, IdOf)
  {
    if cs == [] then []
    else if IdOf(cs[0]) in seen then DistinctFrom(cs[1..], seen)
    else
      var rest := DistinctFrom(cs[1..], seen + {IdOf(cs[0])});
      assert forall c | c in rest :: c in cs;
      [cs[0]] + rest
  }

  /** Every id of the input that was not already taken keeps one
      candidate: the first with that id. */
  lemma {:induction false} DistinctFromKeepsFirst(cs: seq<Candidate>, seen: set<string>, i: nat)
    requires i < |cs| && IdOf(cs[i]) !in seen
    requires forall j | 0 <= j < i :: IdOf(cs[j]) != IdOf(cs[i])
    ensures cs[i] in DistinctFrom(cs, seen)
    decreases i
  {
    if i > 0 {
      if IdOf(cs[0]) in seen {
        DistinctFromKeepsFirst(cs[1..], seen, i - 1);
      } else {
        DistinctFromKeepsFirst(cs[1..], seen + {IdOf(cs[0])}, i - 1);
      }
    }
  }

  function DistinctById(cs: seq<Candidate>): seq<Candidate> {
    DistinctFrom(cs, {})
  }

  /** `sortedByDescending { it.score }` as a total preorder: higher first. */
  predicate ScoreAtLeast(a: Candidate, b: Candidate) {
    a.score >= b.score
  }

  lemma ScoreOrder()
    ensures Sorting.IsTotalPreorder(ScoreAtLeast)
  {
  }

  /** The whole ranking after the pairing loop. */
  function Ranked(out: seq<Candidate>): seq<Candidate> {
    ScoreOrder();
    Take(Sorting.SortBy(DistinctById(out), ScoreAtLeast), ResultLimit)
  }

  /** What `search` returns for a query and the two documents the worker
      would answer with. */
  function SearchResult(query: string, melodyDoc: Option<seq<MatchEntry>>, midiDoc: Option<seq<MatchEntry>>,
                        sha1: seq<Utf8.Byte> -> seq<SongModel.SByte>): seq<Candidate>
  {
    ResultFor(Trim(query), melodyDoc, midiDoc, sha1)
  }

  /** The result once the query is trimmed. */
  function ResultFor(q: string, melodyDoc: Option<seq<MatchEntry>>, midiDoc: Option<seq<MatchEntry>>,
                     sha1: seq<Utf8.Byte> -> seq<SongModel.SByte>): seq<Candidate>
  {
    if IsBlank(q) then []
    else
      var melodies := Matches(melodyDoc);
      var midis := Matches(midiDoc);
      if melodies == [] || midis == [] then []
      else
        Ranked(Candidates(q, Normalize(q), Take(melodies, MelodyLimit), Take(midis, MidiLimit), sha1))
  }

  /** The body of the outer loop for one melody: its candidate, or none
      where the loop `continue`s. */
  method PairMelody(q: string, qNorm: string, m: Match, xs: seq<Match>,
                    sha1: seq<Utf8.Byte> -> seq<SongModel.SByte>) returns (c: Option<Candidate>)
    ensures c == CandidateFor(q, qNorm, m, xs, sha1)
  {
    var mTitle := TitleFromKey(m.key);
    var mNorm := Normalize(mTitle);
    var best, bestSim := BestMatch(mNorm, xs);
    c := PairStep(q, qNorm, m, mTitle, mNorm, best, bestSim, sha1);
  }

  /** The rest of the loop body, once the inner loop has run. */
  method PairStep(q: string, qNorm: string, m: Match, mTitle: string, mNorm: string,
                  best: Option<Match>, bestSim: real,
                  sha1: seq<Utf8.Byte> -> seq<SongModel.SByte>) returns (c: Option<Candidate>)
    ensures c == PairWith(q, qNorm, m, mTitle, mNorm, Best(best, bestSim), sha1)
  {
    if best.None? {
      return None;
    }
    var midi := best.value;
    if bestSim < MinPairSimilarity {
      return None;
    }
    var querySim := QueryTitleScoreOf(qNorm, mNorm);
    var finalScore := 0.75 * querySim + 0.25 * bestSim;
    var id := SongModel.MakeId(m.url, midi.url, sha1);
    var song := SongModel.Song(id, mTitle, m.url, midi.url, q);
    c := Some(Candidate(song, finalScore));
  }

  /** The outer `for (m in melodies.take(50))` loop. */
  method PairAll(q: string, qNorm: string, ms: seq<Match>, xs: seq<Match>,
                 sha1: seq<Utf8.Byte> -> seq<SongModel.SByte>) returns (out: seq<Candidate>)
    ensures out == Candidates(q, qNorm, ms, xs, sha1)
  {
    out := [];
    for i := 0 to |ms|
      invariant out == Candidates(q, qNorm, ms[..i], xs, sha1)
    {
      assert ms[..i + 1][..i] == ms[..i];
      var c := PairMelody(q, qNorm, ms[i], xs, sha1);
      if c.Some? {
        out := out + [c.value];
      }
    }
    assert ms[..|ms|] == ms;
  }

  /** `search`. */
  method Search(query: string, melodyDoc: Option<seq<MatchEntry>>, midiDoc: Option<seq<MatchEntry>>,
                sha1: seq<Utf8.Byte> -> seq<SongModel.SByte>) returns (r: seq<Candidate>)
    ensures r == SearchResult(query, melodyDoc, midiDoc, sha1)
  {
    var q := Trim(query);
    r := SearchTrimmed(q, melodyDoc, midiDoc, sha1);
  }

  /** `search` after `val q = query.trim()`. */
  method SearchTrimmed(q: string, melodyDoc: Option<seq<MatchEntry>>, midiDoc: Option<seq<MatchEntry>>,
                       sha1: seq<Utf8.Byte> -> seq<SongModel.SByte>) returns (r: seq<Candidate>)
    ensures r == ResultFor(q, melodyDoc, midiDoc, sha1)
  {
    if IsBlank(q) {
      return [];
    }
    var melodies := ParseMatches(melodyDoc);
    var midis := ParseMatches(midiDoc);
    if |melodies| == 0 || |midis| == 0 {
      return [];
    }
    var qNorm := Normalize(q);
    var out := PairAll(q, qNorm, Take(melodies, MelodyLimit), Take(midis, MidiLimit), sha1);
    r := Ranked(out);
  }

  /** The ranking keeps the best min(30, n) of the n candidates left once
      ids are made distinct: no two with the same id, best score first,
      each drawn from the pairing loop, no candidate left out scoring above
      one kept, and candidates of equal score in their collected order. */
  lemma RankedShape(out: seq<Candidate>)
    ensures |Ranked(out)| <= ResultLimit
    ensures |Ranked(out)| == Min(ResultLimit, |DistinctById(out)|)
    ensures Sorting.DistinctKeys(Ranked(out), IdOf)
    ensures forall i, j | 0 <= i < j < |Ranked(out)| :: Ranked(out)[i].score >= Ranked(out)[j].score
    ensures forall c | c in Ranked(out) :: c in out && c in DistinctById(out)
    ensures forall c, x | c in DistinctById(out) && c !in Ranked(out) && x in Ranked(out) :: c.score <= x.score
    ensures forall z :: Sorting.Equivalents(Ranked(out), ScoreAtLeast, z)
                          <= Sorting.Equivalents(DistinctById(out), ScoreAtLeast, z)
  {
    ScoreOrder();
    var d := DistinctById(out);
    var s := Sorting.SortBy(d, ScoreAtLeast);
    var n := Min(ResultLimit, |s|);
    assert Ranked(out) == s[..n];
    Sorting.PermutationKeepsDistinctKeys(d, s, IdOf);
    forall c | c in Ranked(out) ensures c in out && c in d {
      assert c in s;
      assert c in multiset(s);
      assert c in multiset(d);
    }
    RankedBest(out);
    RankedStable(out);
  }

  /** No candidate left out of the ranking scores above one kept. */
  lemma RankedBest(out: seq<Candidate>)
    ensures forall c, x | c in DistinctById(out) && c !in Ranked(out) && x in Ranked(out) :: c.score <= x.score
  {
    ScoreOrder();
    var d := DistinctById(out);
    var s := Sorting.SortBy(d, ScoreAtLeast);
    Sorting.SortedPrefixDominates(d, s, Min(ResultLimit, |s|), ScoreAtLeast);
  }

  /** Candidates of equal score are ranked in their collected order. */
  lemma RankedStable(out: seq<Candidate>)
    ensures forall z :: Sorting.Equivalents(Ranked(out), ScoreAtLeast, z)
                          <= Sorting.Equivalents(DistinctById(out), ScoreAtLeast, z)
  {
    ScoreOrder();
    var d := DistinctById(out);
    var s := Sorting.SortBy(d, ScoreAtLeast);
    Sorting.SortByStable(d, ScoreAtLeast);
    forall z ensures Sorting.Equivalents(Ranked(out), ScoreAtLeast, z) <= Sorting.Equivalents(d, ScoreAtLeast, z) {
      Sorting.EquivalentsPrefix(s, Min(ResultLimit, |s|), ScoreAtLeast, z);
    }
  }

  /** Every ranked result is the candidate of one of the melodies. */
  lemma RankedOrigin(q: string, qNorm: string, ms: seq<Match>, xs: seq<Match>,
                     sha1: seq<Utf8.Byte> -> seq<SongModel.SByte>)
    ensures forall c | c in Ranked(Candidates(q, qNorm, ms, xs, sha1)) ::
              exists i | 0 <= i < |ms| :: CandidateFor(q, qNorm, ms[i], xs, sha1) == Some(c)
  {
    var out := Candidates(q, qNorm, ms, xs, sha1);
    RankedShape(out);
    forall c | c in Ranked(out)
      ensures exists i | 0 <= i < |ms| :: CandidateFor(q, qNorm, ms[i], xs, sha1) == Some(c)
    {
      CandidateOrigin(q, qNorm, ms, xs, sha1, c);
    }
  }

  /** A blank query, or an empty listing on either side, gives no result;
      otherwise the results have distinct ids, are ranked by score, are
      the best min(30, n) of the n distinct-id candidates collected from
      the first 50 melodies (paired among the first 80 MIDI files), keep
      equal scores in their collected order, and each is the candidate of
      one of those melodies. */
  lemma SearchShape(query: string, melodyDoc: Option<seq<MatchEntry>>, midiDoc: Option<seq<MatchEntry>>,
                    sha1: seq<Utf8.Byte> -> seq<SongModel.SByte>)
    ensures IsBlank(Trim(query)) || Matches(melodyDoc) == [] || Matches(midiDoc) == []
            ==> SearchResult(query, melodyDoc, midiDoc, sha1) == []
    ensures var r := SearchResult(query, melodyDoc, midiDoc, sha1);
            && |r| <= ResultLimit
            && Sorting.DistinctKeys(r, IdOf)
            && (forall i, j | 0 <= i < j < |r| :: r[i].score >= r[j].score)
    ensures var q := Trim(query);
            var r := SearchResult(query, melodyDoc, midiDoc, sha1);
            var d := DistinctById(Candidates(q, Normalize(q), Take(Matches(melodyDoc), MelodyLimit),
                                             Take(Matches(midiDoc), MidiLimit), sha1));
            !(IsBlank(q) || Matches(melodyDoc) == [] || Matches(midiDoc) == []) ==>
              && |r| == Min(ResultLimit, |d|)
              && (forall c | c in r :: c in d)
              && (forall c, x | c in d && c !in r && x in r :: c.score <= x.score)
              && (forall z :: Sorting.Equivalents(r, ScoreAtLeast, z) <= Sorting.Equivalents(d, ScoreAtLeast, z))
    ensures var q := Trim(query);
            var ms := Take(Matches(melodyDoc), MelodyLimit);
            var xs := Take(Matches(midiDoc), MidiLimit);
            forall c | c in SearchResult(query, melodyDoc, midiDoc, sha1) ::
              exists i | 0 <= i < |ms| :: CandidateFor(q, Normalize(q), ms[i], xs, sha1) == Some(c)
  {
    var q := Trim(query);
    var ms := Take(Matches(melodyDoc), MelodyLimit);
    var xs := Take(Matches(midiDoc), MidiLimit);
    RankedShape(Candidates(q, Normalize(q), ms, xs, sha1));
    RankedOrigin(q, Normalize(q), ms, xs, sha1);
  }
}
