/** Python's `sorted(items, key=…, reverse=True)` and `list.sort(…,
    reverse=True)`: a stable sort, highest key first. The order is given as
    a relation `above(a, b)`, "a's key is strictly greater than b's"; an
    element is placed after the elements already ranked strictly above it,
    so equal keys keep their input order. */
module Ranking {

  /** `above` behaves like "greater key": asymmetric, and "not above" is
      transitive. */
  ghost predicate StrictWeakOrder<T(!new)>(above: (T, T) -> bool) {
    && (forall a, b :: above(a, b) ==> !above(b, a))
    && (forall a, b, c :: !above(a, b) && !above(b, c) ==> !above(a, c))
  }

  /** No element is ranked strictly above an earlier one. */
  predicate SortedDesc<T>(s: seq<T>, above: (T, T) -> bool) {
    forall i, j | 0 <= i < j < |s| :: !above(s[j], s[i])
  }

  /** Places `x` after the leading elements ranked strictly above it. */
  function Insert<T>(x: T, t: seq<T>, above: (T, T) -> bool): (r: seq<T>)
    ensures multiset(r) == multiset(t) + multiset{x}
    ensures |r| == |t| + 1
    decreases |t|
  {
    if |t| == 0 then [x]
    else if above(t[0], x) then
      assert t == [t[0]] + t[1..];
      [t[0]] + Insert(x, t[1..], above)
    else [x] + t
  }

  /** Stable insertion sort, highest first. */
  function SortDesc<T>(s: seq<T>, above: (T, T) -> bool): (r: seq<T>)
    ensures multiset(r) == multiset(s)
    ensures |r| == |s|
    decreases |s|
  {
    if |s| == 0 then []
    else
      assert s == [s[0]] + s[1..];
      Insert(s[0], SortDesc(s[1..], above), above)
  }

  lemma SortedCons<T>(a: T, rest: seq<T>, above: (T, T) -> bool)
    requires SortedDesc(rest, above)
    requires forall y | y in rest :: !above(y, a)
    ensures SortedDesc([a] + rest, above)
  {
    var s := [a] + rest;
    forall i, j | 0 <= i < j < |s| ensures !above(s[j], s[i]) {
      if i == 0 {
        assert s[j] in rest;
      } else {
        assert s[i] == rest[i - 1] && s[j] == rest[j - 1];
      }
    }
  }

  lemma {:induction false} InsertSorted<T(!new)>(x: T, t: seq<T>, above: (T, T) -> bool)
    requires StrictWeakOrder(above)
    requires SortedDesc(t, above)
    ensures SortedDesc(Insert(x, t, above), above)
    decreases |t|
  {
    if |t| > 0 {
      if above(t[0], x) {
        var tail := t[1..];
        assert SortedDesc(tail, above) by {
          forall i, j | 0 <= i < j < |tail| ensures !above(tail[j], tail[i]) {
            assert tail[j] == t[j + 1] && tail[i] == t[i + 1];
          }
        }
        InsertSorted(x, tail, above);
        var rest := Insert(x, tail, above);
        forall y | y in rest ensures !above(y, t[0]) {
          assert y in multiset(rest);
          if y != x {
            assert y in multiset(tail);
            var k :| 0 <= k < |tail| && tail[k] == y;
            assert t[k + 1] == y;
          }
        }
        SortedCons(t[0], rest, above);
      } else {
        forall y | y in t ensures !above(y, x) {
          var k :| 0 <= k < |t| && t[k] == y;
          if k > 0 {
            assert !above(t[k], t[0]);
          }
        }
        SortedCons(x, t, above);
      }
    }
  }

  /** The result is in descending order and holds the same elements. */
  lemma {:induction false} SortDescSorted<T(!new)>(s: seq<T>, above: (T, T) -> bool)
    requires StrictWeakOrder(above)
    ensures SortedDesc(SortDesc(s, above), above)
    decreases |s|
  {
    if |s| > 0 {
      SortDescSorted(s[1..], above);
      InsertSorted(s[0], SortDesc(s[1..], above), above);
    }
  }

  /** A prefix of a descending list is descending. */
  lemma PrefixSorted<T>(s: seq<T>, n: nat, above: (T, T) -> bool)
    requires n <= |s|
    requires SortedDesc(s, above)
    ensures SortedDesc(s[..n], above)
  {
  }

  /** Cutting a descending list after `n` elements keeps the top: nothing
      left out is ranked strictly above anything kept. */
  lemma LeftOutNotAbove<T>(s: seq<T>, n: nat, above: (T, T) -> bool)
    requires n <= |s|
    requires SortedDesc(s, above)
    ensures forall x, y | x in s && x !in s[..n] && y in s[..n] :: !above(x, y)
  {
    forall x, y | x in s && x !in s[..n] && y in s[..n] ensures !above(x, y) {
      var j :| 0 <= j < |s| && s[j] == x;
      var i :| 0 <= i < n && s[..n][i] == y;
      assert j >= n;
      assert s[i] == y;
    }
  }

  // ---------------------------------------------------------------------------
  // String comparison
  // ---------------------------------------------------------------------------

  /** Python's `a < b` on strings: lexicographic by code point, a proper
      prefix coming first. */
  predicate StrLess(a: string, b: string)
    decreases |a|
  {
    if |a| == 0 then |b| > 0
    else if |b| == 0 then false
    else if a[0] != b[0] then a[0] < b[0]
    else StrLess(a[1..], b[1..])
  }

  lemma {:induction false} StrLessAsymmetric(a: string, b: string)
    ensures StrLess(a, b) ==> !StrLess(b, a)
    ensures !StrLess(a, a)
    decreases |a|
  {
    if |a| > 0 && |b| > 0 && a[0] == b[0] {
      StrLessAsymmetric(a[1..], b[1..]);
    }
    if |a| > 0 {
      StrLessAsymmetric(a[1..], a[1..]);
    }
  }

  lemma {:induction false} StrLessTotal(a: string, b: string)
    ensures a == b || StrLess(a, b) || StrLess(b, a)
    decreases |a|
  {
    if |a| > 0 && |b| > 0 && a[0] == b[0] {
      StrLessTotal(a[1..], b[1..]);
      if a[1..] == b[1..] {
        assert a == [a[0]] + a[1..] && b == [b[0]] + b[1..];
      }
    }
  }

  lemma {:induction false} StrLessTransitive(a: string, b: string, c: string)
    requires StrLess(a, b) && StrLess(b, c)
    ensures StrLess(a, c)
    decreases |a|
  {
    if |a| > 0 && a[0] == b[0] && b[0] == c[0] {
      StrLessTransitive(a[1..], b[1..], c[1..]);
    }
  }

  /** Ranking by a string key, greatest first. */
  lemma StrKeyOrder<T(!new)>(key: T -> string)
    ensures StrictWeakOrder((a: T, b: T) => StrLess(key(b), key(a)))
  {
    var above := (a: T, b: T) => StrLess(key(b), key(a));
    forall a: T, b: T | above(a, b) ensures !above(b, a) {
      StrLessAsymmetric(key(b), key(a));
    }
    forall a: T, b: T, c: T | !above(a, b) && !above(b, c) ensures !above(a, c) {
      StrLessTotal(key(a), key(b));
      StrLessTotal(key(b), key(c));
      StrLessAsymmetric(key(c), key(a));
      if StrLess(key(a), key(b)) && StrLess(key(b), key(c)) {
        StrLessTransitive(key(a), key(b), key(c));
      }
    }
  }

  /** Ranking by an integer key, greatest first. */
  lemma IntKeyOrder<T(!new)>(key: T -> int)
    ensures StrictWeakOrder((a: T, b: T) => key(a) > key(b))
  {
  }
}
