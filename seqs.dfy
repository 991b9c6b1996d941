/** Two loop shapes the workers share, stated once over any element type:
    keeping the images of the elements a partial function accepts (a loop
    with `continue` and `push`), and building a map where later keys
    overwrite earlier ones (a loop of `Map.set`). */
module Seqs {
  import opened Wrappers

  /** The accepted images, in order. */
  function FilterMap<T, U>(s: seq<T>, f: T -> Option<U>): seq<U>
    decreases |s|
  {
    if s == [] then []
    else
      var rest := FilterMap(s[..|s| - 1], f);
      var o := f(s[|s| - 1]);
      if o.Some? then rest + [o.value] else rest
  }

  /** Each element is judged alone, so the filter commutes with `+`. */
  lemma {:induction false} FilterMapAppend<T, U>(a: seq<T>, b: seq<T>, f: T -> Option<U>)
    ensures FilterMap(a + b, f) == FilterMap(a, f) + FilterMap(b, f)
    decreases |b|
  {
    if b == [] {
      assert a + b == a;
    } else {
      assert (a + b)[..|a + b| - 1] == a + b[..|b| - 1];
      FilterMapAppend(a, b[..|b| - 1], f);
    }
  }

  /** Every kept value is the image of some element, every accepted element
      has its image kept, and the images of rejected elements are absent. */
  lemma {:induction false} FilterMapShape<T, U>(s: seq<T>, f: T -> Option<U>)
    ensures |FilterMap(s, f)| <= |s|
    ensures forall v | v in FilterMap(s, f) :: exists i | 0 <= i < |s| :: f(s[i]) == Some(v)
    ensures forall i | 0 <= i < |s| && f(s[i]).Some? :: f(s[i]).value in FilterMap(s, f)
    decreases |s|
  {
    if s != [] {
      var init := s[..|s| - 1];
      FilterMapShape(init, f);
      forall v | v in FilterMap(s, f) ensures exists i | 0 <= i < |s| :: f(s[i]) == Some(v) {
        if v in FilterMap(init, f) {
          var i :| 0 <= i < |init| && f(init[i]) == Some(v);
          assert s[i] == init[i];
        } else {
          assert f(s[|s| - 1]) == Some(v);
        }
      }
      forall i | 0 <= i < |s| && f(s[i]).Some? ensures f(s[i]).value in FilterMap(s, f) {
        if i < |s| - 1 {
          assert s[i] == init[i];
        }
      }
    }
  }

  /** When every element is accepted the filter is a plain map. */
  lemma {:induction false} FilterMapAll<T, U>(s: seq<T>, f: T -> Option<U>)
    requires forall i | 0 <= i < |s| :: f(s[i]).Some?
    ensures |FilterMap(s, f)| == |s|
    ensures forall i | 0 <= i < |s| :: FilterMap(s, f)[i] == f(s[i]).value
    decreases |s|
  {
    if s != [] {
      var init := s[..|s| - 1];
      assert forall i | 0 <= i < |init| :: init[i] == s[i];
      FilterMapAll(init, f);
    }
  }

  /** The image of every element, in order (Kotlin `map`). */
  function Map<T, U>(s: seq<T>, f: T -> U): (r: seq<U>)
    ensures |r| == |s| && forall i | 0 <= i < |s| :: r[i] == f(s[i])
  {
    seq(|s|, i requires 0 <= i < |s| => f(s[i]))
  }

  /** The map built by setting `key(x) := val(x)` for every element in turn. */
  function LastWins<T, K, V>(s: seq<T>, key: T -> K, val: T -> V): map<K, V>
    decreases |s|
  {
    if s == [] then map[]
    else LastWins(s[..|s| - 1], key, val)[key(s[|s| - 1]) := val(s[|s| - 1])]
  }

  /** A key is in the map exactly when some element has it, and it maps to
      the value of the last such element. */
  lemma {:induction false} LastWinsShape<T, K, V>(s: seq<T>, key: T -> K, val: T -> V)
    ensures forall k :: k in LastWins(s, key, val) <==> exists j | 0 <= j < |s| :: key(s[j]) == k
    ensures forall k | k in LastWins(s, key, val) ::
              exists j | 0 <= j < |s| :: && key(s[j]) == k && LastWins(s, key, val)[k] == val(s[j])
                                         && forall i | j < i < |s| :: key(s[i]) != k
    decreases |s|
  {
    if s != [] {
      var init := s[..|s| - 1];
      var n := |s| - 1;
      LastWinsShape(init, key, val);
      var m := LastWins(s, key, val);
      forall k ensures k in m <==> exists j | 0 <= j < |s| :: key(s[j]) == k {
        if k in LastWins(init, key, val) {
          var j :| 0 <= j < |init| && key(init[j]) == k;
          assert s[j] == init[j];
        }
        if exists j | 0 <= j < |s| :: key(s[j]) == k {
          var j :| 0 <= j < |s| && key(s[j]) == k;
          if j < n {
            assert init[j] == s[j];
          }
        }
      }
      forall k | k in m
        ensures exists j | 0 <= j < |s| :: && key(s[j]) == k && m[k] == val(s[j])
                                           && forall i | j < i < |s| :: key(s[i]) != k
      {
        if k != key(s[n]) {
          var j :| && 0 <= j < |init| && key(init[j]) == k && LastWins(init, key, val)[k] == val(init[j])
                   && forall i | j < i < |init| :: key(init[i]) != k;
          assert s[j] == init[j];
          forall i | j < i < |s| ensures key(s[i]) != k {
            if i < n {
              assert s[i] == init[i];
            }
          }
        } else {
          assert m[k] == val(s[n]);
        }
      }
    }
  }

  /** The map after one more element. */
  lemma LastWinsSnoc<T, K, V>(s: seq<T>, i: nat, key: T -> K, val: T -> V)
    requires i < |s|
    ensures LastWins(s[..i + 1], key, val) == LastWins(s[..i], key, val)[key(s[i]) := val(s[i])]
  {
    assert s[..i + 1][..i] == s[..i];
  }
}
