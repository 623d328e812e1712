/** Facts about sequences used by the reducer and the statistics: the
    duplicate-free first-seen list (`Array.from(new Set(xs))`), occurrence
    counts (the `counts[k] = (counts[k] || 0) + 1` dictionaries) and filters. */
module Seqs {

  predicate NoDuplicates<T(==)>(s: seq<T>) {
    forall i, j :: 0 <= i < j < |s| ==> s[i] != s[j]
  }

  /** Number of occurrences of `x` in `s`. */
  function Count<T(==)>(s: seq<T>, x: T): nat {
    if s == [] then 0
    else Count(s[..|s| - 1], x) + (if s[|s| - 1] == x then 1 else 0)
  }

  /** Count agrees with the multiplicity of the multiset of `s`. */
  lemma {:induction false} CountIsMultiplicity<T>(s: seq<T>, x: T)
    ensures Count(s, x) == multiset(s)[x]
  {
    if s != [] {
      CountIsMultiplicity(s[..|s| - 1], x);
      assert s == s[..|s| - 1] + [s[|s| - 1]];
    }
  }

  /** Index of the first occurrence of `x` in `s`. */
  function FirstIndex<T(==)>(s: seq<T>, x: T): (r: nat)
    requires x in s
    ensures r < |s| && s[r] == x && x !in s[..r]
  {
    if s[0] == x then 0
    else
      assert s == [s[0]] + s[1..];
      1 + FirstIndex(s[1..], x)
  }

  /** The elements of `s` without repetitions, in order of first occurrence:
      what `Array.from(new Set(s))` yields. */
  function Distinct<T(==)>(s: seq<T>): (r: seq<T>)
    ensures |r| <= |s|
  {
    if s == [] then []
    else
      var d := Distinct(s[..|s| - 1]);
      var z := s[|s| - 1];
      if z in d then d else d + [z]
  }

  /** `Distinct` lists exactly the values of `s`, each once. */
  lemma {:induction false} DistinctElements<T>(s: seq<T>)
    ensures forall x :: x in Distinct(s) <==> x in s
    ensures forall i :: 0 <= i < |Distinct(s)| ==> Distinct(s)[i] in s
    ensures forall i :: 0 <= i < |s| ==> s[i] in Distinct(s)
    ensures NoDuplicates(Distinct(s))
  {
    if s != [] {
      var p, z := s[..|s| - 1], s[|s| - 1];
      assert s == p + [z];
      DistinctElements(p);
    }
  }

  /** Appending one element to `s` appends it to `Distinct(s)` unless it
      was seen already. */
  lemma DistinctSnoc<T>(p: seq<T>, z: T)
    ensures Distinct(p + [z]) == if z in p then Distinct(p) else Distinct(p) + [z]
  {
    assert (p + [z])[..|p|] == p;
    DistinctElements(p);
  }

  lemma {:induction false} FirstIndexOfPrefix<T>(s: seq<T>, z: T, w: T)
    requires w in s
    ensures FirstIndex(s + [z], w) == FirstIndex(s, w)
  {
    if s[0] != w {
      assert (s + [z])[1..] == s[1..] + [z];
      FirstIndexOfPrefix(s[1..], z, w);
    }
  }

  lemma {:induction false} FirstIndexOfNew<T>(s: seq<T>, z: T)
    requires z !in s
    ensures FirstIndex(s + [z], z) == |s|
  {
    assert (s + [z])[..|s|] == s;
  }

  /** `Distinct` keeps first-seen order: an element listed earlier occurred
      first earlier in `s`. */
  lemma {:induction false} DistinctFirstSeenOrder<T>(s: seq<T>, i: nat, j: nat)
    requires i < j < |Distinct(s)|
    ensures Distinct(s)[i] in s && Distinct(s)[j] in s &&
      FirstIndex(s, Distinct(s)[i]) < FirstIndex(s, Distinct(s)[j])
  {
    var p := s[..|s| - 1];
    var z := s[|s| - 1];
    assert s == p + [z];
    DistinctElements(p);
    DistinctElements(s);
    var d := Distinct(p);
    var r := Distinct(s);
    if z in d {
      assert r == d;
      DistinctFirstSeenOrder(p, i, j);
      FirstIndexOfPrefix(p, z, r[i]);
      FirstIndexOfPrefix(p, z, r[j]);
    } else {
      assert r == d + [z];
      assert r[i] == d[i];
      FirstIndexOfPrefix(p, z, r[i]);
      if j < |d| {
        assert r[j] == d[j];
        DistinctFirstSeenOrder(p, i, j);
        FirstIndexOfPrefix(p, z, r[j]);
      } else {
        FirstIndexOfNew(p, z);
      }
    }
  }

  /** Sum of the occurrence counts in `s` of the listed keys. */
  function SumCounts<T(==)>(s: seq<T>, keys: seq<T>): nat {
    if keys == [] then 0 else SumCounts(s, keys[..|keys| - 1]) + Count(s, keys[|keys| - 1])
  }

  lemma {:induction false} SumCountsSnoc<T>(s: seq<T>, z: T, keys: seq<T>)
    ensures SumCounts(s + [z], keys) == SumCounts(s, keys) + Count(keys, z)
  {
    if keys != [] {
      SumCountsSnoc(s, z, keys[..|keys| - 1]);
      assert (s + [z])[..|s|] == s;
    }
  }

  lemma {:induction false} CountOfUnique<T>(keys: seq<T>, z: T)
    requires NoDuplicates(keys)
    ensures Count(keys, z) == if z in keys then 1 else 0
  {
    if keys != [] {
      var p := keys[..|keys| - 1];
      assert keys == p + [keys[|keys| - 1]];
      CountOfUnique(p, z);
    }
  }

  /** Counting every element of `s` once per key of a duplicate-free list that
      holds them all adds up to `|s|`: the histogram covers the input exactly. */
  lemma {:induction false} SumCountsCovers<T>(s: seq<T>, keys: seq<T>)
    requires NoDuplicates(keys)
    requires forall x :: x in s ==> x in keys
    ensures SumCounts(s, keys) == |s|
  {
    if s == [] {
      SumCountsEmpty(keys);
    } else {
      var p := s[..|s| - 1];
      var z := s[|s| - 1];
      assert s == p + [z];
      SumCountsCovers(p, keys);
      SumCountsSnoc(p, z, keys);
      CountOfUnique(keys, z);
    }
  }

  lemma {:induction false} SumCountsEmpty<T>(keys: seq<T>)
    ensures SumCounts([], keys) == 0
  {
    if keys != [] {
      SumCountsEmpty(keys[..|keys| - 1]);
    }
  }

  /** The elements of `s` that satisfy `p`, in order. */
  function Filter<T>(s: seq<T>, p: T -> bool): (r: seq<T>)
    ensures |r| <= |s|
  {
    if s == [] then []
    else (if p(s[0]) then [s[0]] else []) + Filter(s[1..], p)
  }

  /** `Filter` keeps exactly the elements that satisfy `p`. */
  lemma {:induction false} FilterMembers<T>(s: seq<T>, p: T -> bool)
    ensures forall i :: 0 <= i < |Filter(s, p)| ==> Filter(s, p)[i] in s && p(Filter(s, p)[i])
    ensures forall i :: 0 <= i < |s| && p(s[i]) ==> s[i] in Filter(s, p)
  {
    if s != [] {
      assert s == [s[0]] + s[1..];
      FilterMembers(s[1..], p);
    }
  }

  /** Nothing passes a filter no element satisfies. */
  lemma {:induction false} FilterNone<T>(s: seq<T>, p: T -> bool)
    requires forall i :: 0 <= i < |s| ==> !p(s[i])
    ensures Filter(s, p) == []
  {
    if s != [] {
      FilterNone(s[1..], p);
    }
  }

  lemma {:induction false} FilterNoDuplicates<T>(s: seq<T>, p: T -> bool)
    requires NoDuplicates(s)
    ensures NoDuplicates(Filter(s, p))
  {
    if s != [] {
      assert s == [s[0]] + s[1..];
      FilterNoDuplicates(s[1..], p);
      FilterMembers(s[1..], p);
    }
  }

  lemma {:induction false} FilterAppend<T>(a: seq<T>, b: seq<T>, p: T -> bool)
    ensures Filter(a + b, p) == Filter(a, p) + Filter(b, p)
  {
    if a == [] {
      assert a + b == b;
    } else {
      var c := a + b;
      assert c[0] == a[0];
      assert c[1..] == a[1..] + b;
      FilterAppend(a[1..], b, p);
      assert Filter(c, p) == (if p(a[0]) then [a[0]] else []) + Filter(a[1..] + b, p);
    }
  }

  /** The first `n` elements, or all of them if there are fewer: `s.slice(0, n)`. */
  function Take<T>(s: seq<T>, n: nat): (r: seq<T>)
    ensures |r| <= n && |r| <= |s|
    ensures r == s[..|r|]
    ensures |s| >= n ==> |r| == n
    ensures |s| < n ==> r == s
  {
    if |s| <= n then s else s[..n]
  }

  /** Concatenation of the rows, in order: `pixels.flat()`. */
  function Flatten<T>(g: seq<seq<T>>): seq<T> {
    if g == [] then [] else Flatten(g[..|g| - 1]) + g[|g| - 1]
  }

  lemma {:induction false} FlattenRectangular<T>(g: seq<seq<T>>, cols: nat)
    requires forall y :: 0 <= y < |g| ==> |g[y]| == cols
    ensures |Flatten(g)| == |g| * cols
  {
    if g != [] {
      var p := g[..|g| - 1];
      FlattenRectangular(p, cols);
      assert |Flatten(g)| == |p| * cols + cols;
      assert (|p| + 1) * cols == |p| * cols + cols;
    }
  }

  /** The elements of `s`, as a set. */
  function Elements<T(==)>(s: seq<T>): set<T> {
    set i | 0 <= i < |s| :: s[i]
  }

  /** A duplicate-free sequence has as many elements as its set. */
  lemma {:induction false} ElementsOfNoDuplicates<T>(s: seq<T>)
    requires NoDuplicates(s)
    ensures |Elements(s)| == |s|
  {
    if s != [] {
      var p, z := s[..|s| - 1], s[|s| - 1];
      assert NoDuplicates(p);
      ElementsOfNoDuplicates(p);
      assert Elements(s) == Elements(p) + {z};
      assert z !in Elements(p);
    }
  }
}
