/**
 * The parts of JavaScript's Array built-ins the code relies on: `find` and
 * `some` (first match in index order) and `sort` with a numeric key comparator
 * `(a, b) => key(a) - key(b)`, which ECMAScript requires to be stable.
 */
module JsArray {
  import opened Wrappers

  /** Index of the first element at or after `from` that satisfies `p`. */
  function FindIndexFrom<T>(s: seq<T>, p: T -> bool, from: nat): (r: Option<nat>)
    decreases |s| - from
    ensures r.Some? ==> from <= r.value < |s| && p(s[r.value])
    ensures r.Some? ==> forall j :: from <= j < r.value ==> !p(s[j])
    ensures r.None? ==> forall j :: from <= j < |s| ==> !p(s[j])
  {
    if from >= |s| then None
    else if p(s[from]) then Some(from)
    else FindIndexFrom(s, p, from + 1)
  }

  /** `s.find(p)`: the first element satisfying `p`, if any. */
  function Find<T>(s: seq<T>, p: T -> bool): (r: Option<T>)
    ensures r.None? <==> forall j :: 0 <= j < |s| ==> !p(s[j])
    ensures r.Some? ==> exists i :: 0 <= i < |s| && s[i] == r.value && p(s[i]) &&
                                    forall j :: 0 <= j < i ==> !p(s[j])
  {
    match FindIndexFrom(s, p, 0)
    case None => None
    case Some(i) => Some(s[i])
  }

  /** `s.some(p)`. */
  function Any<T>(s: seq<T>, p: T -> bool): (r: bool)
    ensures r <==> exists i :: 0 <= i < |s| && p(s[i])
  {
    FindIndexFrom(s, p, 0).Some?
  }

  /** `find` and `some` agree: `some` holds exactly when `find` finds. */
  lemma AnyIffFind<T>(s: seq<T>, p: T -> bool)
    ensures Any(s, p) <==> Find(s, p).Some?
  {
  }

  /** The elements of `s` are pairwise distinct. */
  predicate NoDup<T(==)>(s: seq<T>) {
    forall i, j :: 0 <= i < j < |s| ==> s[i] != s[j]
  }

  /** Two equal elements at different positions count twice. */
  lemma DupCountsTwice<T>(s: seq<T>, i: nat, j: nat)
    requires i < j < |s| && s[i] == s[j]
    ensures multiset(s)[s[i]] >= 2
  {
    assert s == s[..j] + s[j..];
    assert s[i] in s[..j];
    assert s[j] in s[j..];
    assert multiset(s) == multiset(s[..j]) + multiset(s[j..]);
  }

  /** In a duplicate-free sequence every value occurs at most once. */
  lemma {:induction false} NoDupCountsOnce<T>(s: seq<T>, x: T)
    requires NoDup(s)
    decreases |s|
    ensures multiset(s)[x] <= 1
  {
    if s != [] {
      var rest := s[1..];
      assert s == [s[0]] + rest;
      assert NoDup(rest) by {
        forall i, j | 0 <= i < j < |rest| ensures rest[i] != rest[j] {
          assert rest[i] == s[i + 1] && rest[j] == s[j + 1];
        }
      }
      NoDupCountsOnce(rest, x);
      if x == s[0] {
        forall i | 0 <= i < |rest| ensures rest[i] != x {
          assert rest[i] == s[i + 1];
        }
        assert x !in rest;
      }
    }
  }

  /** A rearrangement of a duplicate-free sequence is duplicate-free. */
  lemma NoDupPermutation<T>(s: seq<T>, t: seq<T>)
    requires NoDup(s) && multiset(s) == multiset(t)
    ensures NoDup(t)
  {
    forall i, j | 0 <= i < j < |t| ensures t[i] != t[j] {
      NoDupCountsOnce(s, t[i]);
      if t[i] == t[j] {
        DupCountsTwice(t, i, j);
      }
    }
  }

  /** A prefix of a duplicate-free sequence is duplicate-free. */
  lemma NoDupPrefix<T>(s: seq<T>, n: nat)
    requires NoDup(s) && n <= |s|
    ensures NoDup(s[..n])
  {
  }

  /** Keys never decrease along `s`. */
  predicate SortedBy<T>(s: seq<T>, key: T -> int) {
    forall i, j :: 0 <= i < j < |s| ==> key(s[i]) <= key(s[j])
  }

  /** Put `x` in front of the first element whose key is not smaller. */
  function InsertBy<T>(x: T, s: seq<T>, key: T -> int): (r: seq<T>)
    decreases |s|
    ensures |r| == |s| + 1
  {
    if s == [] || key(x) <= key(s[0]) then [x] + s
    else [s[0]] + InsertBy(x, s[1..], key)
  }

  lemma {:induction false} InsertByPermutation<T>(x: T, s: seq<T>, key: T -> int)
    decreases |s|
    ensures multiset(InsertBy(x, s, key)) == multiset(s) + multiset{x}
  {
    if !(s == [] || key(x) <= key(s[0])) {
      InsertByPermutation(x, s[1..], key);
      assert s == [s[0]] + s[1..];
    }
  }

  lemma {:induction false} InsertBySorted<T>(x: T, s: seq<T>, key: T -> int)
    requires SortedBy(s, key)
    decreases |s|
    ensures SortedBy(InsertBy(x, s, key), key)
  {
    if !(s == [] || key(x) <= key(s[0])) {
      InsertBySorted(x, s[1..], key);
      InsertByPermutation(x, s[1..], key);
      var t := InsertBy(x, s[1..], key);
      forall y | y in t ensures key(s[0]) <= key(y) {
        assert y in multiset(t);
        assert y == x || y in s[1..];
      }
    }
  }

  /** `[...s].sort((a, b) => key(a) - key(b))`: a stable insertion sort. */
  function SortBy<T>(s: seq<T>, key: T -> int): (r: seq<T>)
    decreases |s|
    ensures |r| == |s|
  {
    if s == [] then [] else InsertBy(s[0], SortBy(s[1..], key), key)
  }

  /** Sorting rearranges: the result is a permutation of the input. */
  lemma {:induction false} SortByPermutation<T>(s: seq<T>, key: T -> int)
    decreases |s|
    ensures multiset(SortBy(s, key)) == multiset(s)
  {
    if s != [] {
      SortByPermutation(s[1..], key);
      InsertByPermutation(s[0], SortBy(s[1..], key), key);
      assert s == [s[0]] + s[1..];
    }
  }

  /** Sorting orders by key. */
  lemma {:induction false} SortBySorted<T>(s: seq<T>, key: T -> int)
    decreases |s|
    ensures SortedBy(SortBy(s, key), key)
  {
    if s != [] {
      SortBySorted(s[1..], key);
      InsertBySorted(s[0], SortBy(s[1..], key), key);
    }
  }

  /** The subsequence of elements with key `k`, in order. */
  function WithKey<T>(s: seq<T>, key: T -> int, k: int): (r: seq<T>)
    decreases |s|
  {
    if s == [] then []
    else if key(s[0]) == k then [s[0]] + WithKey(s[1..], key, k)
    else WithKey(s[1..], key, k)
  }

  lemma {:induction false} WithKeyConcat<T>(a: seq<T>, b: seq<T>, key: T -> int, k: int)
    decreases |a|
    ensures WithKey(a + b, key, k) == WithKey(a, key, k) + WithKey(b, key, k)
  {
    if a != [] {
      assert (a + b)[0] == a[0];
      assert (a + b)[1..] == a[1..] + b;
      WithKeyConcat(a[1..], b, key, k);
    } else {
      assert a + b == b;
    }
  }

  lemma {:induction false} InsertByStable<T>(x: T, s: seq<T>, key: T -> int, k: int)
    decreases |s|
    ensures WithKey(InsertBy(x, s, key), key, k) ==
            (if key(x) == k then [x] else []) + WithKey(s, key, k)
  {
    if s == [] || key(x) <= key(s[0]) {
      WithKeyConcat([x], s, key, k);
    } else {
      InsertByStable(x, s[1..], key, k);
      WithKeyConcat([s[0]], InsertBy(x, s[1..], key), key, k);
      WithKeyConcat([s[0]], s[1..], key, k);
      assert s == [s[0]] + s[1..];
    }
  }

  /** Sorting is stable: elements with equal keys keep their relative order. */
  lemma {:induction false} SortByStable<T>(s: seq<T>, key: T -> int, k: int)
    decreases |s|
    ensures WithKey(SortBy(s, key), key, k) == WithKey(s, key, k)
  {
    if s != [] {
      SortByStable(s[1..], key, k);
      InsertByStable(s[0], SortBy(s[1..], key), key, k);
    }
  }

  /** `[...s].sort(...).slice(0, n)` of a duplicate-free `s`: `n` distinct
      elements of `s`, in key order, and none of the elements left out has a
      smaller key than one taken. */
  lemma SortedPrefix<T>(s: seq<T>, key: T -> int, n: nat)
    requires NoDup(s) && n <= |s|
    ensures |SortBy(s, key)| == |s|
    ensures var r := SortBy(s, key)[..n];
            |r| == n && NoDup(r) && SortedBy(r, key) &&
            (forall x :: x in r ==> x in s) &&
            (forall x, y :: x in s && x !in r && y in r ==> key(y) <= key(x))
  {
    var sorted := SortBy(s, key);
    SortByPermutation(s, key);
    SortBySorted(s, key);
    var r := sorted[..n];
    NoDupPermutation(s, sorted);
    NoDupPrefix(sorted, n);
    forall x | x in r ensures x in s {
      assert x in multiset(sorted);
    }
    forall x, y | x in s && x !in r && y in r ensures key(y) <= key(x) {
      assert x in multiset(sorted);
      PrefixKeysSmallest(sorted, key, n, x, y);
    }
  }

  /** In a sequence sorted by key, an element of a prefix has no larger key
      than an element outside it. */
  lemma PrefixKeysSmallest<T>(sorted: seq<T>, key: T -> int, n: nat, x: T, y: T)
    requires SortedBy(sorted, key) && n <= |sorted|
    requires x in sorted && x !in sorted[..n] && y in sorted[..n]
    ensures key(y) <= key(x)
  {
    var j :| 0 <= j < |sorted| && sorted[j] == x;
    var i :| 0 <= i < n && sorted[..n][i] == y;
    assert sorted[i] == y;
    assert forall k :: 0 <= k < n ==> sorted[..n][k] == sorted[k];
    assert n <= j;
  }
}
