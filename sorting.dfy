/** JavaScript's `Array.prototype.sort` with a numeric comparator
    `(a, b) => key(a) - key(b)` is a stable sort by `key`. This module models
    it as an insertion sort and proves what every stable sort promises:
    the result is ordered by `key`, is a permutation of the input, keeps the
    input order among elements of equal key, and is the only sequence with
    these properties. */
module StableSort {
  import opened Seqs

  predicate SortedBy<T>(s: seq<T>, key: T -> int) {
    forall i, j :: 0 <= i < j < |s| ==> key(s[i]) <= key(s[j])
  }

  /** The elements of `s` whose key is `k`, in order. */
  function WithKey<T>(s: seq<T>, key: T -> int, k: int): seq<T> {
    if s == [] then []
    else (if key(s[0]) == k then [s[0]] else []) + WithKey(s[1..], key, k)
  }

  /** Place `x` before the first element whose key is not smaller. */
  function Insert<T>(x: T, s: seq<T>, key: T -> int): (r: seq<T>)
    ensures |r| == |s| + 1
    ensures multiset(r) == multiset(s) + multiset{x}
  {
    if s == [] || key(x) <= key(s[0]) then [x] + s
    else
      assert s == [s[0]] + s[1..];
      [s[0]] + Insert(x, s[1..], key)
  }

  /** The stable sort of `s` by ascending `key`. */
  function SortBy<T>(s: seq<T>, key: T -> int): (r: seq<T>)
    ensures |r| == |s|
    ensures multiset(r) == multiset(s)
    ensures SortedBy(r, key)
  {
    if s == [] then []
    else
      assert s == [s[0]] + s[1..];
      var t := SortBy(s[1..], key);
      InsertSorted(s[0], t, key);
      Insert(s[0], t, key)
  }

  lemma {:induction false} InsertSorted<T>(x: T, s: seq<T>, key: T -> int)
    requires SortedBy(s, key)
    ensures SortedBy(Insert(x, s, key), key)
  {
    if s != [] && key(x) > key(s[0]) {
      var t := Insert(x, s[1..], key);
      InsertSorted(x, s[1..], key);
      assert forall j :: 0 <= j < |t| ==> t[j] in multiset(s[1..]) + multiset{x};
      assert forall j :: 0 <= j < |t| ==> key(s[0]) <= key(t[j]) by {
        forall j | 0 <= j < |t| ensures key(s[0]) <= key(t[j]) {
          assert t[j] in multiset(s[1..]) + multiset{x};
          if t[j] != x {
            assert t[j] in s[1..];
            var m :| 0 <= m < |s[1..]| && s[1..][m] == t[j];
            assert s[m + 1] == t[j];
          }
        }
      }
    }
  }

  lemma WithKeyCons<T>(y: T, t: seq<T>, key: T -> int, k: int)
    ensures WithKey([y] + t, key, k) == (if key(y) == k then [y] else []) + WithKey(t, key, k)
  {
    assert ([y] + t)[0] == y;
    assert ([y] + t)[1..] == t;
  }

  lemma {:induction false} WithKeyInsert<T>(x: T, s: seq<T>, key: T -> int, k: int)
    ensures WithKey(Insert(x, s, key), key, k) == (if key(x) == k then [x] else []) + WithKey(s, key, k)
  {
    if s == [] || key(x) <= key(s[0]) {
      WithKeyCons(x, s, key, k);
    } else {
      var s0, s1 := s[0], s[1..];
      var t := Insert(x, s1, key);
      assert s == [s0] + s1;
      WithKeyCons(s0, t, key, k);
      WithKeyCons(s0, s1, key, k);
      WithKeyInsert(x, s1, key, k);
      var w := WithKey(s1, key, k);
      if key(x) == k {
        // s0 has a smaller key than x, so it is not in the group
        assert WithKey(Insert(x, s, key), key, k) == [] + ([x] + w);
        assert [] + ([x] + w) == [x] + ([] + w);
      } else {
        assert WithKey(Insert(x, s, key), key, k) == (if key(s0) == k then [s0] else []) + ([] + w);
        assert [] + w == w;
      }
    }
  }

  /** Stability: among elements of equal key the sorted result keeps the input
      order. */
  lemma {:induction false} SortByIsStable<T>(s: seq<T>, key: T -> int, k: int)
    ensures WithKey(SortBy(s, key), key, k) == WithKey(s, key, k)
  {
    if s != [] {
      SortByIsStable(s[1..], key, k);
      WithKeyInsert(s[0], SortBy(s[1..], key), key, k);
    }
  }

  lemma {:induction false} WithKeyMembers<T>(s: seq<T>, key: T -> int, k: int, i: nat)
    requires i < |s| && key(s[i]) == k
    ensures WithKey(s, key, k) != []
  {
    if i > 0 {
      WithKeyMembers(s[1..], key, k, i - 1);
    }
  }

  lemma {:induction false} WithKeyKeys<T>(s: seq<T>, key: T -> int, k: int, j: nat)
    requires j < |WithKey(s, key, k)|
    ensures WithKey(s, key, k)[j] in s && key(WithKey(s, key, k)[j]) == k
  {
    if s != [] {
      if key(s[0]) == k && j == 0 {
      } else {
        var j' := if key(s[0]) == k then j - 1 else j;
        WithKeyKeys(s[1..], key, k, j');
        assert WithKey(s, key, k)[j] == WithKey(s[1..], key, k)[j'];
      }
    }
  }

  /** Uniqueness: two sequences that are both ordered by `key` and agree on the
      order of every group of equal keys are equal. Hence any stable sort (the
      engine's own included) returns exactly `SortBy`. */
  lemma {:induction false} SortedGroupsDetermine<T>(a: seq<T>, b: seq<T>, key: T -> int)
    requires SortedBy(a, key) && SortedBy(b, key)
    requires forall k :: WithKey(a, key, k) == WithKey(b, key, k)
    ensures a == b
  {
    if a == [] || b == [] {
      if a != [] {
        WithKeyMembers(a, key, key(a[0]), 0);
      } else if b != [] {
        WithKeyMembers(b, key, key(b[0]), 0);
      }
    } else {
      var ka, kb := key(a[0]), key(b[0]);
      // the smallest keys agree
      WithKeyMembers(b, key, kb, 0);
      WithKeyKeys(a, key, kb, 0);
      var u := WithKey(a, key, kb)[0];
      var ia :| 0 <= ia < |a| && a[ia] == u;
      assert ka <= kb;
      WithKeyMembers(a, key, ka, 0);
      WithKeyKeys(b, key, ka, 0);
      var v := WithKey(b, key, ka)[0];
      var ib :| 0 <= ib < |b| && b[ib] == v;
      assert kb <= ka;
      assert a[0] == b[0] by {
        assert WithKey(a, key, ka)[0] == a[0];
        assert WithKey(b, key, ka)[0] == b[0];
      }
      forall k ensures WithKey(a[1..], key, k) == WithKey(b[1..], key, k) {
        var wa, wb := WithKey(a, key, k), WithKey(b, key, k);
        if k == ka {
          assert wa == [a[0]] + WithKey(a[1..], key, k);
          assert wb == [b[0]] + WithKey(b[1..], key, k);
          assert wa[1..] == WithKey(a[1..], key, k);
          assert wb[1..] == WithKey(b[1..], key, k);
        } else {
          assert wa == WithKey(a[1..], key, k);
          assert wb == WithKey(b[1..], key, k);
        }
      }
      SortedGroupsDetermine(a[1..], b[1..], key);
      assert a == [a[0]] + a[1..];
      assert b == [b[0]] + b[1..];
    }
  }

  /** Sorting an already sorted sequence changes nothing. */
  lemma SortBySortedIsIdentity<T>(s: seq<T>, key: T -> int)
    requires SortedBy(s, key)
    ensures SortBy(s, key) == s
  {
    forall k ensures WithKey(SortBy(s, key), key, k) == WithKey(s, key, k) {
      SortByIsStable(s, key, k);
    }
    SortedGroupsDetermine(SortBy(s, key), s, key);
  }

  /** Two inputs that agree on the order within every group of equal keys
      (they may interleave the groups differently) sort to the same result. */
  lemma SortByDependsOnGroupsOnly<T>(a: seq<T>, b: seq<T>, key: T -> int)
    requires forall k :: WithKey(a, key, k) == WithKey(b, key, k)
    ensures SortBy(a, key) == SortBy(b, key)
  {
    forall k ensures WithKey(SortBy(a, key), key, k) == WithKey(SortBy(b, key), key, k) {
      SortByIsStable(a, key, k);
      SortByIsStable(b, key, k);
    }
    SortedGroupsDetermine(SortBy(a, key), SortBy(b, key), key);
  }

  lemma FilterCons<T>(x: T, s: seq<T>, p: T -> bool)
    ensures Filter([x] + s, p) == (if p(x) then [x] else []) + Filter(s, p)
  {
    assert ([x] + s)[1..] == s;
  }

  lemma FilterHeadKey<T>(s: seq<T>, key: T -> int, p: T -> bool)
    requires SortedBy(s, key) && Filter(s, p) != []
    ensures key(s[0]) <= key(Filter(s, p)[0])
  {
    var f := Filter(s, p);
    FilterMembers(s, p);
    assert f[0] in s;
    var m :| 0 <= m < |s| && s[m] == f[0];
  }

  /** Filtering commutes with a stable sort. */
  lemma {:induction false} FilterInsert<T>(x: T, s: seq<T>, key: T -> int, p: T -> bool)
    requires SortedBy(s, key)
    ensures Filter(Insert(x, s, key), p) == if p(x) then Insert(x, Filter(s, p), key) else Filter(s, p)
  {
    var f := Filter(s, p);
    if s == [] || key(x) <= key(s[0]) {
      FilterCons(x, s, p);
      if p(x) && f != [] {
        FilterHeadKey(s, key, p);
      }
    } else {
      var s0, rest := s[0], s[1..];
      assert s == [s0] + rest;
      var t := Insert(x, rest, key);
      assert Insert(x, s, key) == [s0] + t;
      FilterCons(s0, t, p);
      FilterCons(s0, rest, p);
      assert SortedBy(rest, key);
      FilterInsert(x, rest, key, p);
      var fr := Filter(rest, p);
      if p(s0) {
        assert f == [s0] + fr;
        if p(x) {
          assert ([s0] + fr)[0] == s0 && ([s0] + fr)[1..] == fr;
          assert Insert(x, f, key) == [s0] + Insert(x, fr, key);
        }
      } else {
        assert f == fr;
      }
    }
  }

  lemma {:induction false} FilterSortBy<T>(s: seq<T>, key: T -> int, p: T -> bool)
    ensures Filter(SortBy(s, key), p) == SortBy(Filter(s, p), key)
  {
    if s != [] {
      var s0, rest := s[0], s[1..];
      assert s == [s0] + rest;
      var t := SortBy(rest, key);
      assert SortBy(s, key) == Insert(s0, t, key);
      FilterSortBy(rest, key, p);
      FilterInsert(s0, t, key, p);
      var fr := Filter(rest, p);
      if p(s0) {
        assert Filter(s, p) == [s0] + fr;
        assert ([s0] + fr)[1..] == fr;
        assert SortBy([s0] + fr, key) == Insert(s0, SortBy(fr, key), key);
      } else {
        assert Filter(s, p) == fr;
      }
    }
  }

  /** Insertion keeps a sequence free of duplicates. */
  lemma {:induction false} InsertNoDuplicates<T>(x: T, s: seq<T>, key: T -> int)
    requires NoDuplicates(s) && x !in s
    ensures NoDuplicates(Insert(x, s, key))
  {
    if !(s == [] || key(x) <= key(s[0])) {
      assert s == [s[0]] + s[1..];
      InsertNoDuplicates(x, s[1..], key);
      var t := Insert(x, s[1..], key);
      assert s[0] !in s[1..];
      assert s[0] !in multiset(t);
    }
  }

  lemma {:induction false} SortByNoDuplicates<T>(s: seq<T>, key: T -> int)
    requires NoDuplicates(s)
    ensures NoDuplicates(SortBy(s, key))
  {
    if s != [] {
      assert s == [s[0]] + s[1..];
      SortByNoDuplicates(s[1..], key);
      var t := SortBy(s[1..], key);
      assert s[0] !in s[1..];
      assert s[0] !in multiset(t);
      InsertNoDuplicates(s[0], t, key);
    }
  }

  predicate LexSortedBy<T>(s: seq<T>, key: T -> int, tie: T -> int) {
    forall i, j :: 0 <= i < j < |s| ==>
      key(s[i]) < key(s[j]) || (key(s[i]) == key(s[j]) && tie(s[i]) < tie(s[j]))
  }

  predicate StrictlyAscending<T>(s: seq<T>, tie: T -> int) {
    forall i, j :: 0 <= i < j < |s| ==> tie(s[i]) < tie(s[j])
  }

  lemma {:induction false} InsertLexSorted<T>(x: T, s: seq<T>, key: T -> int, tie: T -> int)
    requires LexSortedBy(s, key, tie)
    requires forall j :: 0 <= j < |s| ==> tie(x) < tie(s[j])
    ensures LexSortedBy(Insert(x, s, key), key, tie)
  {
    if s != [] && key(x) > key(s[0]) {
      var t := Insert(x, s[1..], key);
      InsertLexSorted(x, s[1..], key, tie);
      forall j | 0 <= j < |t|
        ensures key(s[0]) < key(t[j]) || (key(s[0]) == key(t[j]) && tie(s[0]) < tie(t[j]))
      {
        assert t[j] in multiset(s[1..]) + multiset{x};
        if t[j] != x {
          assert t[j] in s[1..];
          var m :| 0 <= m < |s[1..]| && s[1..][m] == t[j];
          assert s[m + 1] == t[j];
        }
      }
    }
  }

  /** When the input is strictly ascending in a second key `tie`, the stable
      sort orders by `key` first and breaks ties by ascending `tie`. */
  lemma {:induction false} SortByBreaksTiesByInputOrder<T>(s: seq<T>, key: T -> int, tie: T -> int)
    requires StrictlyAscending(s, tie)
    ensures LexSortedBy(SortBy(s, key), key, tie)
  {
    if s != [] {
      assert s == [s[0]] + s[1..];
      var t := SortBy(s[1..], key);
      SortByBreaksTiesByInputOrder(s[1..], key, tie);
      forall j | 0 <= j < |t| ensures tie(s[0]) < tie(t[j]) {
        assert t[j] in multiset(s[1..]);
        assert t[j] in s[1..];
        var m :| 0 <= m < |s[1..]| && s[1..][m] == t[j];
        assert s[m + 1] == t[j];
      }
      InsertLexSorted(s[0], t, key, tie);
    }
  }
}
