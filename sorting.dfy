/** Python's list ordering and truncation: `sorted(..., reverse=True)` /
    `list.sort(reverse=True)` by a numeric key (a stable sort, so equal keys
    keep their input order), the prefix slice `xs[:n]`, and SQL `LIMIT n`. */
module Sorting {

  ghost predicate SortedDesc<T>(s: seq<T>, key: T -> real) {
    forall i, j :: 0 <= i < j < |s| ==> key(s[i]) >= key(s[j])
  }

  /** The elements of `s` whose key is exactly `v`, in their order in `s`. */
  function WithKey<T>(s: seq<T>, key: T -> real, v: real): seq<T> {
    if s == [] then []
    else (if key(s[0]) == v then [s[0]] else []) + WithKey(s[1..], key, v)
  }

  /** Puts `x` in front of the first element whose key does not exceed its own. */
  function InsertDesc<T>(x: T, s: seq<T>, key: T -> real): (r: seq<T>)
    ensures |r| == |s| + 1
    ensures multiset(r) == multiset(s) + multiset{x}
  {
    if s == [] || key(x) >= key(s[0]) then [x] + s
    else
      assert s == [s[0]] + s[1..];
      [s[0]] + InsertDesc(x, s[1..], key)
  }

  ghost predicate KeysAtMost<T>(s: seq<T>, key: T -> real, b: real) {
    forall k :: 0 <= k < |s| ==> key(s[k]) <= b
  }

  /** A sequence sorted descending stays sorted under a new head whose
      key bounds all of it. */
  lemma SortedCons<T>(h: T, t: seq<T>, key: T -> real)
    requires SortedDesc(t, key) && KeysAtMost(t, key, key(h))
    ensures SortedDesc([h] + t, key)
  {
    var r := [h] + t;
    forall i, j | 0 <= i < j < |r| ensures key(r[i]) >= key(r[j]) {
      assert r[j] == t[j - 1];
      if i > 0 {
        assert r[i] == t[i - 1];
      }
    }
  }

  /** Inserting never raises the largest key beyond a common bound. */
  lemma {:induction false} InsertDescAtMost<T>(x: T, s: seq<T>, key: T -> real, b: real)
    requires KeysAtMost(s, key, b) && key(x) <= b
    ensures KeysAtMost(InsertDesc(x, s, key), key, b)
  {
    var r := InsertDesc(x, s, key);
    if s == [] || key(x) >= key(s[0]) {
      forall k | 0 <= k < |r| ensures key(r[k]) <= b {
        if k > 0 {
          assert r[k] == s[k - 1];
        }
      }
    } else {
      var t := InsertDesc(x, s[1..], key);
      InsertDescAtMost(x, s[1..], key, b);
      forall k | 0 <= k < |r| ensures key(r[k]) <= b {
        if k > 0 {
          assert r[k] == t[k - 1];
        }
      }
    }
  }

  lemma {:induction false} InsertDescSorted<T>(x: T, s: seq<T>, key: T -> real)
    requires SortedDesc(s, key)
    ensures SortedDesc(InsertDesc(x, s, key), key)
  {
    if s == [] || key(x) >= key(s[0]) {
      SortedCons(x, s, key);
    } else {
      var t := InsertDesc(x, s[1..], key);
      assert SortedDesc(s[1..], key) by {
        forall i, j | 0 <= i < j < |s[1..]| ensures key(s[1..][i]) >= key(s[1..][j]) {
          assert s[1..][i] == s[i + 1] && s[1..][j] == s[j + 1];
        }
      }
      InsertDescSorted(x, s[1..], key);
      assert KeysAtMost(s[1..], key, key(s[0])) by {
        forall k | 0 <= k < |s[1..]| ensures key(s[1..][k]) <= key(s[0]) {
          assert s[1..][k] == s[k + 1];
        }
      }
      InsertDescAtMost(x, s[1..], key, key(s[0]));
      SortedCons(s[0], t, key);
    }
  }

  /** Stable descending sort by `key`: the result is a permutation of `s`,
      its keys never increase, and among equal keys the input order is kept
      (SortDescStable). */
  function SortDesc<T>(s: seq<T>, key: T -> real): (r: seq<T>)
    ensures |r| == |s|
    ensures multiset(r) == multiset(s)
    ensures SortedDesc(r, key)
  {
    if s == [] then []
    else
      var rest := SortDesc(s[1..], key);
      SortDescStep(s, rest, key);
      InsertDesc(s[0], rest, key)
  }

  /** Inserting the head into the sorted tail sorts the whole sequence. */
  lemma SortDescStep<T>(s: seq<T>, rest: seq<T>, key: T -> real)
    requires s != [] && multiset(rest) == multiset(s[1..]) && SortedDesc(rest, key)
    ensures multiset(InsertDesc(s[0], rest, key)) == multiset(s)
    ensures SortedDesc(InsertDesc(s[0], rest, key), key)
  {
    InsertDescSorted(s[0], rest, key);
    assert s == [s[0]] + s[1..];
  }

  lemma {:induction false} InsertDescWithKey<T>(x: T, s: seq<T>, key: T -> real, v: real)
    ensures WithKey(InsertDesc(x, s, key), key, v)
         == (if key(x) == v then [x] else []) + WithKey(s, key, v)
  {
    var r := InsertDesc(x, s, key);
    if s == [] || key(x) >= key(s[0]) {
      assert r[0] == x && r[1..] == s;
    } else {
      var t := InsertDesc(x, s[1..], key);
      InsertDescWithKey(x, s[1..], key, v);
      assert r[0] == s[0] && r[1..] == t;
      assert WithKey(r, key, v) == (if key(s[0]) == v then [s[0]] else []) + WithKey(t, key, v);
    }
  }

  /** Stability: sorting does not reorder elements whose keys are equal. */
  lemma {:induction false} SortDescStable<T>(s: seq<T>, key: T -> real, v: real)
    ensures WithKey(SortDesc(s, key), key, v) == WithKey(s, key, v)
  {
    if s != [] {
      SortDescStable(s[1..], key, v);
      InsertDescWithKey(s[0], SortDesc(s[1..], key), key, v);
    }
  }

  /** Python's `s[:n]`: a negative `n` drops `-n` elements from the end. */
  function PyPrefix<T>(s: seq<T>, n: int): (r: seq<T>)
    ensures n >= 0 ==> |r| == if n < |s| then n else |s|
    ensures n < 0 ==> |r| == if |s| + n > 0 then |s| + n else 0
    ensures |r| <= |s| && r == s[..|r|]
  {
    if n >= 0 then (if n < |s| then s[..n] else s)
    else (if |s| + n > 0 then s[..|s| + n] else [])
  }

  /** SQLite's `LIMIT n`: a negative limit means no limit at all. */
  function SqlLimit<T>(s: seq<T>, n: int): (r: seq<T>)
    ensures n < 0 ==> r == s
    ensures n >= 0 ==> |r| == if n < |s| then n else |s|
    ensures |r| <= |s| && r == s[..|r|]
  {
    if n < 0 || n >= |s| then s else s[..n]
  }

  /** The first `n` of a descending sort are themselves sorted and are
      drawn from the input without repetition. */
  lemma TopDesc<T>(s: seq<T>, key: T -> real, n: int)
    ensures SortedDesc(PyPrefix(SortDesc(s, key), n), key)
    ensures multiset(PyPrefix(SortDesc(s, key), n)) <= multiset(s)
  {
    var sorted := SortDesc(s, key);
    var r := PyPrefix(sorted, n);
    assert sorted == r + sorted[|r|..];
    assert multiset(sorted) == multiset(r) + multiset(sorted[|r|..]);
    forall i, j | 0 <= i < j < |r| ensures key(r[i]) >= key(r[j]) {
      assert r[i] == sorted[i] && r[j] == sorted[j];
    }
  }

  /** The first `n` of a descending sort score no lower than any element
      left out. */
  lemma TopDominates<T>(s: seq<T>, key: T -> real, n: int, x: T)
    requires x in s && x !in PyPrefix(SortDesc(s, key), n)
    ensures forall i :: 0 <= i < |PyPrefix(SortDesc(s, key), n)| ==>
      key(PyPrefix(SortDesc(s, key), n)[i]) >= key(x)
  {
    var sorted := SortDesc(s, key);
    var top := PyPrefix(sorted, n);
    assert x in multiset(sorted);
    var k :| 0 <= k < |sorted| && sorted[k] == x;
    assert k >= |top|;
    forall i | 0 <= i < |top| ensures key(top[i]) >= key(x) {
      assert top[i] == sorted[i];
    }
  }

  predicate Distinct<T(==)>(s: seq<T>) {
    forall i, j :: 0 <= i < j < |s| ==> s[i] != s[j]
  }

  lemma {:induction false} DistinctCount<T>(s: seq<T>, x: T)
    requires Distinct(s)
    ensures multiset(s)[x] <= 1
  {
    if s != [] {
      assert s == [s[0]] + s[1..];
      assert Distinct(s[1..]) by {
        forall i, j | 0 <= i < j < |s[1..]| ensures s[1..][i] != s[1..][j] {
          assert s[1..][i] == s[i + 1] && s[1..][j] == s[j + 1];
        }
      }
      DistinctCount(s[1..], x);
      if x == s[0] {
        forall i | 0 <= i < |s[1..]| ensures s[1..][i] != x {
          assert s[1..][i] == s[i + 1];
        }
        assert x !in s[1..];
      }
    }
  }

  lemma RepeatCount<T>(s: seq<T>, i: int, j: int)
    requires 0 <= i < j < |s|
    ensures s[i] == s[j] ==> multiset(s)[s[i]] >= 2
  {
    assert s == s[..i] + [s[i]] + s[i + 1..j] + [s[j]] + s[j + 1..];
  }

  /** A rearrangement of a list without repetition has none either. */
  lemma DistinctPermutation<T>(s: seq<T>, t: seq<T>)
    requires Distinct(s) && multiset(s) == multiset(t)
    ensures Distinct(t)
  {
    forall i, j | 0 <= i < j < |t| ensures t[i] != t[j] {
      RepeatCount(t, i, j);
      DistinctCount(s, t[i]);
    }
  }
}
