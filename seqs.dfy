/**
 * The array operations the pages and reducers are built from, stated once:
 * `filter`, `find`/`findIndex`, `slice(0, n)`, the include-or-append toggle
 * and a stable `sort` by a numeric key.
 */
module Seqs {

  /** `s.filter(p)`: the elements of `s` that satisfy `p`, in their original order. */
  function Filter<T(!new)>(s: seq<T>, p: T -> bool): (r: seq<T>)
    ensures |r| <= |s|
    ensures forall x :: x in r <==> x in s && p(x)
  {
    if s == [] then [] else (if p(s[0]) then [s[0]] else []) + Filter(s[1..], p)
  }

  /** `a` is `b` with some elements left out and the rest in their original order. */
  ghost predicate IsSubsequence<T>(a: seq<T>, b: seq<T>)
    decreases |b|
  {
    if a == [] then true
    else if b == [] then false
    else if a[0] == b[0] then IsSubsequence(a[1..], b[1..])
    else IsSubsequence(a, b[1..])
  }

  lemma {:induction false} FilterIsSubsequence<T(!new)>(s: seq<T>, p: T -> bool)
    ensures IsSubsequence(Filter(s, p), s)
    decreases |s|
  {
    if s != [] {
      FilterIsSubsequence(s[1..], p);
      var rest := Filter(s[1..], p);
      var r := Filter(s, p);
      if p(s[0]) {
        assert r == [s[0]] + rest;
        assert r[0] == s[0] && r[1..] == rest;
      } else {
        assert r == rest;
        if rest != [] {
          assert rest[0] in rest;
          assert rest[0] != s[0];
        }
      }
    }
  }

  lemma {:induction false} FilterAppend<T(!new)>(a: seq<T>, b: seq<T>, p: T -> bool)
    ensures Filter(a + b, p) == Filter(a, p) + Filter(b, p)
    decreases |a|
  {
    if a == [] {
      assert a + b == b;
    } else {
      var ab := a + b;
      assert ab[0] == a[0] && ab[1..] == a[1..] + b;
      FilterAppend(a[1..], b, p);
      var head := if p(a[0]) then [a[0]] else [];
      calc {
        Filter(ab, p);
        head + Filter(a[1..] + b, p);
        head + (Filter(a[1..], p) + Filter(b, p));
        (head + Filter(a[1..], p)) + Filter(b, p);
      }
    }
  }

  /** Filtering keeps everything when every element passes. */
  lemma {:induction false} FilterKeepsAll<T(!new)>(s: seq<T>, p: T -> bool)
    requires forall i :: 0 <= i < |s| ==> p(s[i])
    ensures Filter(s, p) == s
  {
    if s != [] {
      FilterKeepsAll(s[1..], p);
    }
  }

  /** Filtering twice by the same predicate is filtering once. */
  lemma FilterIdempotent<T(!new)>(s: seq<T>, p: T -> bool)
    ensures Filter(Filter(s, p), p) == Filter(s, p)
  {
    var r := Filter(s, p);
    forall i | 0 <= i < |r| ensures p(r[i]) {
      assert r[i] in r;
    }
    FilterKeepsAll(r, p);
  }

  /** Two tests that agree on every element select the same elements. */
  lemma {:induction false} FilterCongruent<T(!new)>(s: seq<T>, p: T -> bool, q: T -> bool)
    requires forall i :: 0 <= i < |s| ==> p(s[i]) == q(s[i])
    ensures Filter(s, p) == Filter(s, q)
  {
    if s != [] {
      FilterCongruent(s[1..], p, q);
    }
  }

  /** Index of the first element whose key is `k`, or -1 (`findIndex`). */
  function IndexOf<T, K(==)>(s: seq<T>, key: T -> K, k: K): (r: int)
    ensures -1 <= r < |s|
    ensures r == -1 <==> forall i :: 0 <= i < |s| ==> key(s[i]) != k
    ensures 0 <= r ==> key(s[r]) == k && forall i :: 0 <= i < r ==> key(s[i]) != k
    decreases |s|
  {
    if s == [] then -1
    else if key(s[0]) == k then 0
    else
      var j := IndexOf(s[1..], key, k);
      if j == -1 then -1 else j + 1
  }

  /** The linear search behind `find` and `findIndex`. */
  method FindIndex<T, K(==)>(s: seq<T>, key: T -> K, k: K) returns (i: int)
    ensures i == IndexOf(s, key, k)
  {
    i := 0;
    while i < |s|
      invariant 0 <= i <= |s|
      invariant forall j :: 0 <= j < i ==> key(s[j]) != k
    {
      if key(s[i]) == k {
        return;
      }
      i := i + 1;
    }
    i := -1;
  }

  /** No two elements share a key. */
  ghost predicate UniqueKeys<T, K>(s: seq<T>, key: T -> K) {
    forall i, j :: 0 <= i < j < |s| ==> key(s[i]) != key(s[j])
  }

  /** Append `x` unless an element with its key is present (`if (!s.find(...)) s.push(x)`). */
  function AddIfAbsent<T, K(==)>(s: seq<T>, key: T -> K, x: T): (r: seq<T>)
  {
    if IndexOf(s, key, key(x)) != -1 then s else s + [x]
  }

  lemma AddIfAbsentFacts<T, K>(s: seq<T>, key: T -> K, x: T)
    ensures (exists i :: 0 <= i < |s| && key(s[i]) == key(x)) ==> AddIfAbsent(s, key, x) == s
    ensures (forall i :: 0 <= i < |s| ==> key(s[i]) != key(x)) ==> AddIfAbsent(s, key, x) == s + [x]
    ensures UniqueKeys(s, key) ==> UniqueKeys(AddIfAbsent(s, key, x), key)
  {
  }

  /** `s.filter(x => key(x) !== k)`. */
  function RemoveKey<T(!new), K(==)>(s: seq<T>, key: T -> K, k: K): (r: seq<T>)
  {
    Filter(s, x => key(x) != k)
  }

  lemma RemoveKeyFacts<T(!new), K>(s: seq<T>, key: T -> K, k: K)
    ensures forall x :: x in RemoveKey(s, key, k) <==> x in s && key(x) != k
    ensures IsSubsequence(RemoveKey(s, key, k), s)
    ensures RemoveKey(RemoveKey(s, key, k), key, k) == RemoveKey(s, key, k)
    ensures (forall i :: 0 <= i < |s| ==> key(s[i]) != k) ==> RemoveKey(s, key, k) == s
  {
    FilterIsSubsequence(s, x => key(x) != k);
    FilterIdempotent(s, x => key(x) != k);
    if forall i :: 0 <= i < |s| ==> key(s[i]) != k {
      FilterKeepsAll(s, x => key(x) != k);
    }
  }

  /** Removing by key keeps the remaining keys distinct. */
  lemma {:induction false} RemoveKeyKeepsUnique<T(!new), K>(s: seq<T>, key: T -> K, k: K)
    requires UniqueKeys(s, key)
    ensures UniqueKeys(RemoveKey(s, key, k), key)
  {
    if s != [] {
      RemoveKeyKeepsUnique(s[1..], key, k);
      var rest := RemoveKey(s[1..], key, k);
      forall j | 0 <= j < |rest| ensures key(rest[j]) != key(s[0]) {
        assert rest[j] in s[1..];
      }
    }
  }

  /**
   * With distinct keys, removing the key of element `i` removes that one
   * element and nothing else: the result is one shorter.
   */
  lemma {:induction false} RemoveUniqueKey<T(!new), K>(s: seq<T>, key: T -> K, i: int)
    requires UniqueKeys(s, key) && 0 <= i < |s|
    ensures RemoveKey(s, key, key(s[i])) == s[..i] + s[i + 1..]
    ensures |RemoveKey(s, key, key(s[i]))| == |s| - 1
    decreases i
  {
    var k := key(s[i]);
    var tail := s[1..];
    assert UniqueKeys(tail, key) by {
      forall a, b | 0 <= a < b < |tail| ensures key(tail[a]) != key(tail[b]) {
        assert tail[a] == s[a + 1] && tail[b] == s[b + 1];
      }
    }
    if i == 0 {
      forall j | 0 <= j < |tail| ensures key(tail[j]) != k {
        assert tail[j] == s[j + 1];
      }
      RemoveKeyFacts(tail, key, k);
      assert RemoveKey(s, key, k) == RemoveKey(tail, key, k);
    } else {
      assert key(s[0]) != k;
      assert tail[i - 1] == s[i];
      RemoveUniqueKey(tail, key, i - 1);
      assert RemoveKey(s, key, k) == [s[0]] + RemoveKey(tail, key, k);
      assert s[..i] == [s[0]] + tail[..i - 1];
      assert s[i + 1..] == tail[i..];
    }
  }

  /** Put `x` at the index of the first element with `x`'s key, if there is one (`s[findIndex(...)] = x`). */
  function ReplaceFirst<T, K(==)>(s: seq<T>, key: T -> K, x: T): (r: seq<T>)
    ensures |r| == |s|
    ensures IndexOf(s, key, key(x)) == -1 ==> r == s
    ensures IndexOf(s, key, key(x)) != -1 ==>
      r[IndexOf(s, key, key(x))] == x &&
      forall j :: 0 <= j < |s| && j != IndexOf(s, key, key(x)) ==> r[j] == s[j]
  {
    var i := IndexOf(s, key, key(x));
    if i == -1 then s else s[i := x]
  }

  /** Overwriting an element that the predicate rejects with another it rejects leaves the filter unchanged. */
  lemma {:induction false} FilterUpdateRejected<T(!new)>(s: seq<T>, i: int, x: T, p: T -> bool)
    requires 0 <= i < |s| && !p(s[i]) && !p(x)
    ensures Filter(s[i := x], p) == Filter(s, p)
  {
    if i > 0 {
      FilterUpdateRejected(s[1..], i - 1, x, p);
      assert s[i := x][1..] == s[1..][i - 1 := x];
    } else {
      assert s[i := x][1..] == s[1..];
    }
  }

  /** Removing by `x`'s key after replacing by `x` is the same as removing by that key alone. */
  lemma RemoveAfterReplace<T(!new), K>(s: seq<T>, key: T -> K, x: T)
    ensures RemoveKey(ReplaceFirst(s, key, x), key, key(x)) == RemoveKey(s, key, key(x))
  {
    var i := IndexOf(s, key, key(x));
    if i != -1 {
      FilterUpdateRejected(s, i, x, y => key(y) != key(x));
    }
  }

  /**
   * After adding `x` when absent and then removing its key, no element with
   * that key is left; when the key was absent to begin with, the sequence is
   * exactly what it was.
   */
  lemma AddThenRemove<T(!new), K>(s: seq<T>, key: T -> K, x: T)
    ensures forall y :: y in RemoveKey(AddIfAbsent(s, key, x), key, key(x)) ==> key(y) != key(x)
    ensures (forall i :: 0 <= i < |s| ==> key(s[i]) != key(x)) ==>
      RemoveKey(AddIfAbsent(s, key, x), key, key(x)) == s
  {
    RemoveKeyFacts(AddIfAbsent(s, key, x), key, key(x));
    if forall i :: 0 <= i < |s| ==> key(s[i]) != key(x) {
      FilterAppend(s, [x], y => key(y) != key(x));
      FilterKeepsAll(s, y => key(y) != key(x));
      assert Filter([x], y => key(y) != key(x)) == [];
    }
  }

  /** Removing the key of an element just put in front removes it again, along with any older element sharing that key. */
  lemma RemoveAfterPrepend<T(!new), K>(s: seq<T>, key: T -> K, x: T)
    ensures RemoveKey([x] + s, key, key(x)) == RemoveKey(s, key, key(x))
  {
    assert ([x] + s)[1..] == s;
  }

  /** Remove `x` if present, append it otherwise: the selection toggles of the pages. */
  function Toggle<T(==,!new)>(s: seq<T>, x: T): (r: seq<T>)
    ensures x in r <==> x !in s
    ensures forall y :: y != x ==> (y in r <==> y in s)
  {
    if x in s then Filter(s, y => y != x) else s + [x]
  }

  /**
   * Toggling the same element twice gives back a selection with the same
   * elements, and exactly the same sequence when the element was not selected.
   */
  lemma ToggleTwice<T(!new)>(s: seq<T>, x: T)
    ensures forall y :: y in Toggle(Toggle(s, x), x) <==> y in s
    ensures x !in s ==> Toggle(Toggle(s, x), x) == s
  {
    if x !in s {
      FilterAppend(s, [x], y => y != x);
      forall i | 0 <= i < |s| ensures s[i] != x {
      }
      FilterKeepsAll(s, y => y != x);
    }
  }

  /** `s.slice(0, n)`. */
  function Prefix<T>(s: seq<T>, n: nat): (r: seq<T>)
    ensures |r| == if |s| < n then |s| else n
    ensures r == s[..|r|]
  {
    if |s| <= n then s else s[..n]
  }

  /** `s.filter((_, i) => i !== index)`. */
  function RemoveAt<T>(s: seq<T>, index: int): (r: seq<T>)
    ensures 0 <= index < |s| ==>
              && |r| == |s| - 1
              && (forall j :: 0 <= j < index ==> r[j] == s[j])
              && (forall j :: index < j < |s| ==> r[j - 1] == s[j])
    ensures !(0 <= index < |s|) ==> r == s
  {
    if 0 <= index < |s| then s[..index] + s[index + 1..] else s
  }

  /** Keys never decrease from left to right. */
  ghost predicate SortedBy<T>(s: seq<T>, key: T -> real) {
    forall i, j :: 0 <= i < j < |s| ==> key(s[i]) <= key(s[j])
  }

  /** Put `x` before the first element whose key is not smaller than its own. */
  function Insert<T>(x: T, s: seq<T>, key: T -> real): (r: seq<T>)
    decreases |s|
  {
    if s == [] || key(x) <= key(s[0]) then [x] + s else [s[0]] + Insert(x, s[1..], key)
  }

  /** `[...s].sort((a, b) => key(a) - key(b))`: a stable sort by ascending key. */
  function SortBy<T>(s: seq<T>, key: T -> real): (r: seq<T>)
  {
    if s == [] then [] else Insert(s[0], SortBy(s[1..], key), key)
  }

  /** The elements of `s` whose key is `v`, in order. */
  function WithKey<T(!new)>(s: seq<T>, key: T -> real, v: real): seq<T>
  {
    Filter(s, y => key(y) == v)
  }

  lemma {:induction false} InsertFacts<T>(x: T, s: seq<T>, key: T -> real)
    ensures multiset(Insert(x, s, key)) == multiset(s) + multiset{x}
    ensures SortedBy(s, key) ==> SortedBy(Insert(x, s, key), key)
  {
    InsertPerm(x, s, key);
    if SortedBy(s, key) {
      InsertSorted(x, s, key);
    }
  }

  lemma {:induction false} InsertPerm<T>(x: T, s: seq<T>, key: T -> real)
    ensures multiset(Insert(x, s, key)) == multiset(s) + multiset{x}
    decreases |s|
  {
    if s != [] && key(s[0]) < key(x) {
      InsertPerm(x, s[1..], key);
      assert s == [s[0]] + s[1..];
      assert Insert(x, s, key) == [s[0]] + Insert(x, s[1..], key);
    }
  }

  lemma {:induction false} InsertElements<T>(x: T, s: seq<T>, key: T -> real)
    ensures forall j :: 0 <= j < |Insert(x, s, key)| ==>
      Insert(x, s, key)[j] == x || exists k :: 0 <= k < |s| && s[k] == Insert(x, s, key)[j]
    decreases |s|
  {
    if s != [] && key(s[0]) < key(x) {
      InsertElements(x, s[1..], key);
      var rest := Insert(x, s[1..], key);
      var r := Insert(x, s, key);
      forall j | 0 <= j < |r| ensures r[j] == x || exists k :: 0 <= k < |s| && s[k] == r[j] {
        if j == 0 {
          assert s[0] == r[0];
        } else if rest[j - 1] != x {
          var k :| 0 <= k < |s[1..]| && s[1..][k] == rest[j - 1];
          assert s[k + 1] == r[j];
        }
      }
    }
  }

  lemma {:induction false} InsertSorted<T>(x: T, s: seq<T>, key: T -> real)
    requires SortedBy(s, key)
    ensures SortedBy(Insert(x, s, key), key)
    decreases |s|
  {
    if s != [] && key(s[0]) < key(x) {
      var t := s[1..];
      assert SortedBy(t, key) by {
        forall i, j | 0 <= i < j < |t| ensures key(t[i]) <= key(t[j]) {
          assert t[i] == s[i + 1] && t[j] == s[j + 1];
        }
      }
      InsertSorted(x, t, key);
      InsertElements(x, t, key);
      var rest := Insert(x, t, key);
      var r := Insert(x, s, key);
      assert r == [s[0]] + rest;
      forall j | 0 <= j < |rest| ensures key(s[0]) <= key(rest[j]) {
        if rest[j] != x {
          var k :| 0 <= k < |t| && t[k] == rest[j];
          assert t[k] == s[k + 1];
        }
      }
      forall i, j | 0 <= i < j < |r| ensures key(r[i]) <= key(r[j]) {
        if i == 0 {
          assert r[j] == rest[j - 1];
        } else {
          assert r[i] == rest[i - 1] && r[j] == rest[j - 1];
        }
      }
    }
  }

  lemma {:induction false} InsertWithKey<T(!new)>(x: T, s: seq<T>, key: T -> real, v: real)
    ensures WithKey(Insert(x, s, key), key, v) == (if key(x) == v then [x] else []) + WithKey(s, key, v)
  {
    if s != [] && key(s[0]) < key(x) {
      InsertWithKey(x, s[1..], key, v);
    }
  }

  /** The sort orders by key, permutes its input, and keeps the input order among equal keys. */
  lemma {:induction false} SortByFacts<T(!new)>(s: seq<T>, key: T -> real)
    ensures SortedBy(SortBy(s, key), key)
    ensures multiset(SortBy(s, key)) == multiset(s)
    ensures forall v :: WithKey(SortBy(s, key), key, v) == WithKey(s, key, v)
  {
    if s != [] {
      SortByFacts(s[1..], key);
      InsertFacts(s[0], SortBy(s[1..], key), key);
      assert s == [s[0]] + s[1..];
      forall v ensures WithKey(SortBy(s, key), key, v) == WithKey(s, key, v) {
        InsertWithKey(s[0], SortBy(s[1..], key), key, v);
      }
    }
  }
}
