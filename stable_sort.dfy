/** The stable descending sort that `Array.prototype.sort` performs with a comparator
    `(a, b) => key(b) - key(a)`: the result is ordered by non-increasing key, and elements
    with equal keys keep their input order. */
module StableSort {

  /** Non-increasing by `key`. */
  ghost predicate SortedDesc<T>(s: seq<T>, key: T -> int) {
    forall i, j :: 0 <= i < j < |s| ==> key(s[i]) >= key(s[j])
  }

  /** The elements of `s` whose key is `k`, in their order in `s`. */
  function WithKey<T>(s: seq<T>, key: T -> int, k: int): seq<T>
    decreases |s|
  {
    if s == [] then []
    else (if key(s[0]) == k then [s[0]] else []) + WithKey(s[1..], key, k)
  }

  /** The sum of `val` over `s`. */
  function SumBy<T>(s: seq<T>, val: T -> int): int
    decreases |s|
  {
    if s == [] then 0 else val(s[0]) + SumBy(s[1..], val)
  }

  /** `x` placed before the first element whose key is not larger than its own. */
  function Insert<T>(x: T, s: seq<T>, key: T -> int): (r: seq<T>)
    ensures multiset(r) == multiset(s) + multiset{x}
    decreases |s|
  {
    if s == [] then [x]
    else if key(s[0]) <= key(x) then [x] + s
    else
      assert s == [s[0]] + s[1..];
      [s[0]] + Insert(x, s[1..], key)
  }

  /** Insertion sort: the head is inserted into the sorted tail. */
  function Sort<T>(s: seq<T>, key: T -> int): (r: seq<T>)
    ensures SortedDesc(r, key)
    ensures multiset(r) == multiset(s)
    decreases |s|
  {
    if s == [] then []
    else
      assert s == [s[0]] + s[1..];
      var t := Sort(s[1..], key);
      InsertSorted(s[0], t, key);
      Insert(s[0], t, key)
  }

  // ---------------------------------------------------------------------------------------
  // Lemmas

  /** A head whose key bounds every key of an ordered tail gives an ordered sequence. */
  lemma ConsSorted<T>(h: T, t: seq<T>, key: T -> int)
    requires SortedDesc(t, key)
    requires forall y :: y in t ==> key(y) <= key(h)
    ensures SortedDesc([h] + t, key)
  {
    var r := [h] + t;
    forall i, j | 0 <= i < j < |r| ensures key(r[i]) >= key(r[j]) {
      assert r[j] == t[j - 1];
      if i > 0 {
        assert r[i] == t[i - 1];
      }
    }
  }

  /** Every element of an ordered sequence has a key no larger than the head's. */
  lemma HeadBounds<T>(s: seq<T>, key: T -> int)
    requires s != [] && SortedDesc(s, key)
    ensures forall y :: y in s[1..] ==> key(y) <= key(s[0])
  {
    forall y | y in s[1..] ensures key(y) <= key(s[0]) {
      var j :| 0 <= j < |s[1..]| && s[1..][j] == y;
      assert s[j + 1] == y;
    }
  }

  /** Inserting into an ordered sequence keeps it ordered. */
  lemma {:induction false} InsertSorted<T>(x: T, s: seq<T>, key: T -> int)
    requires SortedDesc(s, key)
    ensures SortedDesc(Insert(x, s, key), key)
    decreases |s|
  {
    if s == [] {
    } else if key(s[0]) > key(x) {
      var t := Insert(x, s[1..], key);
      assert SortedDesc(s[1..], key);
      InsertSorted(x, s[1..], key);
      HeadBounds(s, key);
      forall y | y in t ensures key(y) <= key(s[0]) {
        assert y in multiset(t);
      }
      ConsSorted(s[0], t, key);
    } else {
      HeadBounds(s, key);
      ConsSorted(x, s, key);
    }
  }

  /** The key filter of a sequence with a known head. */
  lemma WithKeyCons<T>(y: T, t: seq<T>, key: T -> int, k: int)
    ensures WithKey([y] + t, key, k) == (if key(y) == k then [y] else []) + WithKey(t, key, k)
  {
    assert ([y] + t)[1..] == t;
  }

  /** Inserting `x` puts it ahead of every element with the same key. */
  lemma {:induction false} InsertWithKey<T>(x: T, s: seq<T>, key: T -> int, k: int)
    ensures WithKey(Insert(x, s, key), key, k) == (if key(x) == k then [x] else []) + WithKey(s, key, k)
    decreases |s|
  {
    var xs := if key(x) == k then [x] else [];
    if s != [] && key(s[0]) > key(x) {
      var t := Insert(x, s[1..], key);
      var hs := if key(s[0]) == k then [s[0]] else [];
      var w := WithKey(s[1..], key, k);
      assert WithKey(Insert(x, s, key), key, k) == hs + (xs + w) by {
        InsertWithKey(x, s[1..], key, k);
        assert Insert(x, s, key) == [s[0]] + t;
        WithKeyCons(s[0], t, key, k);
      }
      assert WithKey(s, key, k) == hs + w by {
        WithKeyCons(s[0], s[1..], key, k);
        assert [s[0]] + s[1..] == s;
      }
      SwapEmpty(hs, xs, w);
    } else {
      assert Insert(x, s, key) == [x] + s;
      WithKeyCons(x, s, key, k);
    }
  }

  /** Two sequences of which one is empty can be swapped in front of a third. */
  lemma SwapEmpty<T>(a: seq<T>, b: seq<T>, w: seq<T>)
    requires a == [] || b == []
    ensures a + (b + w) == b + (a + w)
  {
    if a == [] {
      assert a + (b + w) == b + w && a + w == w;
    } else {
      assert b + w == w && b + (a + w) == a + w;
    }
  }

  /** Stability: for every key, the elements with that key appear in the sorted result in
      exactly their input order. */
  lemma {:induction false} SortStable<T>(s: seq<T>, key: T -> int, k: int)
    ensures WithKey(Sort(s, key), key, k) == WithKey(s, key, k)
    decreases |s|
  {
    if s != [] {
      SortStable(s[1..], key, k);
      InsertWithKey(s[0], Sort(s[1..], key), key, k);
    }
  }

  /** Sorting a sequence that is already in order changes nothing. */
  lemma {:induction false} SortOfSorted<T>(s: seq<T>, key: T -> int)
    requires SortedDesc(s, key)
    ensures Sort(s, key) == s
    decreases |s|
  {
    if s != [] {
      var t := s[1..];
      assert Sort(s, key) == Insert(s[0], t, key) by {
        assert SortedDesc(t, key);
        SortOfSorted(t, key);
      }
      assert Insert(s[0], t, key) == [s[0]] + t by {
        if t != [] {
          assert key(t[0]) <= key(s[0]);
        }
      }
      assert [s[0]] + t == s;
    }
  }

  /** Sorting twice is sorting once. */
  lemma SortIdempotent<T>(s: seq<T>, key: T -> int)
    ensures Sort(Sort(s, key), key) == Sort(s, key)
  {
    SortOfSorted(Sort(s, key), key);
  }

  /** Inserting adds the inserted element's value to the sum. */
  lemma {:induction false} SumInsert<T>(x: T, s: seq<T>, key: T -> int, val: T -> int)
    ensures SumBy(Insert(x, s, key), val) == val(x) + SumBy(s, val)
    decreases |s|
  {
    if s != [] && key(s[0]) > key(x) {
      SumInsert(x, s[1..], key, val);
      assert ([s[0]] + Insert(x, s[1..], key))[1..] == Insert(x, s[1..], key);
    } else if s != [] {
      assert ([x] + s)[1..] == s;
    }
  }

  /** Sorting does not change a sum. */
  lemma {:induction false} SumSort<T>(s: seq<T>, key: T -> int, val: T -> int)
    ensures SumBy(Sort(s, key), val) == SumBy(s, val)
    decreases |s|
  {
    if s != [] {
      SumSort(s[1..], key, val);
      SumInsert(s[0], Sort(s[1..], key), key, val);
    }
  }

  /** A sum over a concatenation is the sum of the sums. */
  lemma {:induction false} SumAppend<T>(a: seq<T>, b: seq<T>, val: T -> int)
    ensures SumBy(a + b, val) == SumBy(a, val) + SumBy(b, val)
    decreases |a|
  {
    if a != [] {
      assert (a + b)[1..] == a[1..] + b;
      SumAppend(a[1..], b, val);
    } else {
      assert a + b == b;
    }
  }
}
