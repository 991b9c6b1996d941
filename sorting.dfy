/** A stable insertion sort over a total preorder: the shape of Kotlin's
    `sorted`, `sortedBy`, `sortedByDescending` and JavaScript's `Array.sort`,
    all of which are stable. */
module Sorting {

  /** `le` is total and transitive. */
  ghost predicate IsTotalPreorder<T(!new)>(le: (T, T) -> bool) {
    && (forall x, y :: le(x, y) || le(y, x))
    && (forall x, y, z :: le(x, y) && le(y, z) ==> le(x, z))
  }

  ghost predicate IsSorted<T>(s: seq<T>, le: (T, T) -> bool) {
    forall i, j | 0 <= i < j < |s| :: le(s[i], s[j])
  }

  /** Inserts `x` before the first element it is `le` to, so that `x`
      comes before the equal elements that follow it in the input. */
  function Insert<T(!new)>(x: T, t: seq<T>, le: (T, T) -> bool): (r: seq<T>)
    requires IsTotalPreorder(le)
    requires IsSorted(t, le)
    ensures multiset(r) == multiset(t) + multiset{x}
    ensures IsSorted(r, le)
  {
    if t == [] then [x]
    else if le(x, t[0]) then [x] + t
    else
      SortedTail(t, le);
      var rest := Insert(x, t[1..], le);
      assert t == [t[0]] + t[1..];
      HeadBelowTail(x, t, le);
      HeadBelowAll(t[0], rest, t[1..] + [x], le);
      ConsSorted(t[0], rest, le);
      [t[0]] + rest
  }

  /** The head of a sorted sequence is `le` to the rest of it and to an
      `x` that does not go before it. */
  lemma HeadBelowTail<T(!new)>(x: T, t: seq<T>, le: (T, T) -> bool)
    requires IsTotalPreorder(le) && IsSorted(t, le)
    requires t != [] && !le(x, t[0])
    ensures forall k | 0 <= k < |t[1..] + [x]| :: le(t[0], (t[1..] + [x])[k])
  {
    var u := t[1..] + [x];
    forall k | 0 <= k < |u| ensures le(t[0], u[k]) {
      if k < |t| - 1 {
        assert u[k] == t[k + 1];
      }
    }
  }

  /** An element `le` to everything in `u` is `le` to every element of any
      rearrangement of `u`. */
  lemma HeadBelowAll<T>(a: T, rest: seq<T>, u: seq<T>, le: (T, T) -> bool)
    requires multiset(rest) == multiset(u)
    requires forall k | 0 <= k < |u| :: le(a, u[k])
    ensures forall k | 0 <= k < |rest| :: le(a, rest[k])
  {
    forall k | 0 <= k < |rest| ensures le(a, rest[k]) {
      assert rest[k] in multiset(u);
    }
  }

  /** Putting an element `le` to all of a sorted sequence in front keeps it
      sorted. */
  lemma ConsSorted<T>(a: T, rest: seq<T>, le: (T, T) -> bool)
    requires IsSorted(rest, le)
    requires forall k | 0 <= k < |rest| :: le(a, rest[k])
    ensures IsSorted([a] + rest, le)
  {
    var r := [a] + rest;
    forall i, j | 0 <= i < j < |r| ensures le(r[i], r[j]) {
      assert r[j] == rest[j - 1];
      if i > 0 {
        assert r[i] == rest[i - 1];
      }
    }
  }

  /** The elements of `s` in `le` order; equal elements keep their order
      (SortByStable). */
  function SortBy<T(!new)>(s: seq<T>, le: (T, T) -> bool): (r: seq<T>)
    requires IsTotalPreorder(le)
    ensures |r| == |s|
    ensures multiset(r) == multiset(s)
    ensures IsSorted(r, le)
  {
    if s == [] then []
    else
      assert s == [s[0]] + s[1..];
      var r := Insert(s[0], SortBy(s[1..], le), le);
      assert |r| == |multiset(r)|;
      r
  }

  /** The elements of `s` that `le` ranks equal to `z`, in their order in
      `s`. A sort is stable when this is the same before and after for
      every `z`. */
  function Equivalents<T>(s: seq<T>, le: (T, T) -> bool, z: T): (r: seq<T>)
    ensures |r| <= |s|
  {
    if s == [] then []
    else (if le(s[0], z) && le(z, s[0]) then [s[0]] else []) + Equivalents(s[1..], le, z)
  }

  /** Inserting `x` puts it ahead of every element equal to it and leaves
      the order of the others alone. */
  lemma {:induction false} InsertStable<T(!new)>(x: T, t: seq<T>, le: (T, T) -> bool, z: T)
    requires IsTotalPreorder(le)
    requires IsSorted(t, le)
    ensures Equivalents(Insert(x, t, le), le, z)
            == (if le(x, z) && le(z, x) then [x] else []) + Equivalents(t, le, z)
  {
    var r := Insert(x, t, le);
    var ex := if le(x, z) && le(z, x) then [x] else [];
    if t == [] {
      assert r[1..] == [];
    } else if le(x, t[0]) {
      assert r[1..] == t;
    } else {
      var t1 := t[1..];
      SortedTail(t, le);
      InsertStable(x, t1, le, z);
      var rest := Insert(x, t1, le);
      assert r == [t[0]] + rest;
      assert r[1..] == rest;
      var e0 := if le(t[0], z) && le(z, t[0]) then [t[0]] else [];
      assert Equivalents(r, le, z) == e0 + Equivalents(rest, le, z);
      assert Equivalents(t, le, z) == e0 + Equivalents(t1, le, z);
      NotBothEqual(x, t[0], z, le);
      if e0 == [] {
        assert e0 + Equivalents(rest, le, z) == Equivalents(rest, le, z);
        assert e0 + Equivalents(t1, le, z) == Equivalents(t1, le, z);
      } else {
        assert ex == [];
        assert ex + Equivalents(t1, le, z) == Equivalents(t1, le, z);
        assert ex + Equivalents(t, le, z) == Equivalents(t, le, z);
      }
    }
  }

  /** When `x` does not go before `y`, they are not both equal to `z`. */
  lemma NotBothEqual<T(!new)>(x: T, y: T, z: T, le: (T, T) -> bool)
    requires IsTotalPreorder(le) && !le(x, y)
    ensures !(le(x, z) && le(z, x) && le(y, z) && le(z, y))
  {
  }

  lemma SortedTail<T>(t: seq<T>, le: (T, T) -> bool)
    requires t != [] && IsSorted(t, le)
    ensures IsSorted(t[1..], le)
  {
    var t1 := t[1..];
    forall i, j | 0 <= i < j < |t1| ensures le(t1[i], t1[j]) {
      assert t1[i] == t[i + 1] && t1[j] == t[j + 1];
    }
  }

  /** `SortBy` is stable: the elements equal to any `z` appear in the same
      order in the result as in the input. */
  lemma {:induction false} SortByStable<T(!new)>(s: seq<T>, le: (T, T) -> bool)
    requires IsTotalPreorder(le)
    ensures forall z :: Equivalents(SortBy(s, le), le, z) == Equivalents(s, le, z)
  {
    if s != [] {
      SortByStable(s[1..], le);
      forall z ensures Equivalents(SortBy(s, le), le, z) == Equivalents(s, le, z) {
        InsertStable(s[0], SortBy(s[1..], le), le, z);
      }
    }
  }

  /** The equal elements of a prefix are a prefix of the equal elements. */
  lemma {:induction false} EquivalentsPrefix<T>(s: seq<T>, n: nat, le: (T, T) -> bool, z: T)
    requires n <= |s|
    ensures Equivalents(s[..n], le, z) <= Equivalents(s, le, z)
  {
    if n > 0 {
      assert s[..n][1..] == s[1..][..n - 1];
      EquivalentsPrefix(s[1..], n - 1, le, z);
    }
  }

  /** A prefix of a sorted rearrangement of `d` holds its best elements:
      every element of `d` left out of the prefix is ranked no earlier than
      every element kept. */
  lemma SortedPrefixDominates<T>(d: seq<T>, s: seq<T>, n: nat, le: (T, T) -> bool)
    requires multiset(s) == multiset(d) && IsSorted(s, le) && n <= |s|
    ensures forall c, x | c in d && c !in s[..n] && x in s[..n] :: le(x, c)
  {
    forall c, x | c in d && c !in s[..n] && x in s[..n] ensures le(x, c) {
      assert c in multiset(d);
      assert c in multiset(s);
      var j :| 0 <= j < |s| && s[j] == c;
      var i :| 0 <= i < n && s[..n][i] == x;
      assert s[i] == x;
    }
  }

  /** No two positions of `s` share a key. */
  ghost predicate DistinctKeys<T, K>(s: seq<T>, key: T -> K) {
    forall i, j | 0 <= i < j < |s| :: key(s[i]) != key(s[j])
  }

  lemma RepeatedValue<T>(s: seq<T>, i: nat, j: nat)
    requires i < j < |s| && s[i] == s[j]
    ensures multiset(s)[s[i]] >= 2
  {
    assert s == s[..j] + [s[j]] + s[j + 1..];
    assert s[i] in multiset(s[..j]);
  }

  lemma {:induction false} TwoPositions<T>(s: seq<T>, v: T)
    requires multiset(s)[v] >= 2
    ensures exists p, q | 0 <= p < q < |s| :: s[p] == v && s[q] == v
  {
    assert s == [s[0]] + s[1..];
    if s[0] == v {
      assert v in multiset(s[1..]);
      var q :| 0 <= q < |s[1..]| && s[1..][q] == v;
      assert s[q + 1] == v;
    } else {
      TwoPositions(s[1..], v);
      var p, q :| 0 <= p < q < |s[1..]| && s[1..][p] == v && s[1..][q] == v;
      assert s[p + 1] == v && s[q + 1] == v;
    }
  }

  /** Rearranging a sequence keeps its keys distinct. */
  lemma PermutationKeepsDistinctKeys<T, K>(s: seq<T>, r: seq<T>, key: T -> K)
    requires multiset(r) == multiset(s) && DistinctKeys(s, key)
    ensures DistinctKeys(r, key)
  {
    forall i, j | 0 <= i < j < |r| ensures key(r[i]) != key(r[j]) {
      if r[i] == r[j] {
        RepeatedValue(r, i, j);
        TwoPositions(s, r[i]);
      } else {
        assert r[i] in multiset(s) && r[j] in multiset(s);
        var p :| 0 <= p < |s| && s[p] == r[i];
        var q :| 0 <= q < |s| && s[q] == r[j];
        assert p != q;
      }
    }
  }
}
