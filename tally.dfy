/** Counting objects: the `counts[k] = (counts[k] || 0) + 1` loops that build
    a histogram in a plain JavaScript object, the `Object.entries` view of
    such an object, and the "sort by count descending, keep the first n"
    ranking applied to it. */
module Tally {
  import opened Seqs
  import opened StableSort

  /** One `[key, count]` pair of `Object.entries`. */
  datatype Entry<K> = Entry(key: K, count: nat)

  /** The entries for the given key order, each with its count in `s`. */
  function EntriesIn<K(==)>(s: seq<K>, keys: seq<K>): (r: seq<Entry<K>>)
    ensures |r| == |keys|
    ensures forall i :: 0 <= i < |r| ==> r[i] == Entry(keys[i], Count(s, keys[i]))
  {
    seq(|keys|, i requires 0 <= i < |keys| => Entry(keys[i], Count(s, keys[i])))
  }

  /** `Object.entries` of a counting object, listed in the order `keys`. */
  function EntriesOf<K(==)>(counts: map<K, nat>, keys: seq<K>): seq<Entry<K>>
    requires forall i :: 0 <= i < |keys| ==> keys[i] in counts
  {
    seq(|keys|, i requires 0 <= i < |keys| => Entry(keys[i], counts[keys[i]]))
  }

  /** Reading the counts off the object built by the counting loop gives the
      histogram of `s`. */
  lemma EntriesOfCountMap<K>(s: seq<K>, keys: seq<K>)
    requires forall i :: 0 <= i < |keys| ==> keys[i] in s
    ensures forall i :: 0 <= i < |keys| ==> keys[i] in CountMap(s)
    ensures EntriesOf(CountMap(s), keys) == EntriesIn(s, keys)
  {
    CountMapCounts(s);
  }

  /** Sum of the counts of a list of entries. */
  function Total<K>(e: seq<Entry<K>>): nat {
    if e == [] then 0 else Total(e[..|e| - 1]) + e[|e| - 1].count
  }

  /** The object the counting loop builds, one element at a time. */
  function CountMap<K(==)>(s: seq<K>): map<K, nat> {
    if s == [] then map[]
    else
      var m := CountMap(s[..|s| - 1]);
      var z := s[|s| - 1];
      m[z := (if z in m then m[z] else 0) + 1]
  }

  /** The object's keys are the values of `s`, each mapped to its number of
      occurrences. */
  lemma {:induction false} CountMapCounts<K>(s: seq<K>)
    ensures forall k :: k in CountMap(s) <==> k in s
    ensures forall k :: k in CountMap(s) ==> CountMap(s)[k] == Count(s, k)
  {
    if s != [] {
      var p, z := s[..|s| - 1], s[|s| - 1];
      assert s == p + [z];
      CountMapCounts(p);
      forall k | k in CountMap(s) ensures CountMap(s)[k] == Count(s, k) {
        if k != z {
          assert CountMap(s)[k] == CountMap(p)[k];
        } else if z !in p {
          CountIsMultiplicity(p, z);
        }
      }
    }
  }

  /** The counting loop: `counts` maps every value of `s` to its number of
      occurrences, and `order` lists the keys in insertion order. */
  method CountOccurrences<K(==)>(s: seq<K>) returns (counts: map<K, nat>, order: seq<K>)
    ensures order == Distinct(s)
    ensures counts == CountMap(s)
  {
    counts, order := map[], [];
    var i := 0;
    while i < |s|
      invariant 0 <= i <= |s|
      invariant order == Distinct(s[..i])
      invariant counts == CountMap(s[..i])
    {
      var x := s[i];
      CountStep(s, i);
      if x !in counts {
        order := order + [x];
      }
      counts := counts[x := (if x in counts then counts[x] else 0) + 1];
      i := i + 1;
    }
    assert s[..|s|] == s;
  }

  /** One iteration of the counting loop, stated on the prefixes. */
  lemma CountStep<K>(s: seq<K>, i: nat)
    requires i < |s|
    ensures s[i] in CountMap(s[..i]) <==> s[i] in s[..i]
    ensures CountMap(s[..i + 1]) ==
      CountMap(s[..i])[s[i] := (if s[i] in CountMap(s[..i]) then CountMap(s[..i])[s[i]] else 0) + 1]
    ensures Distinct(s[..i + 1]) == if s[i] in s[..i] then Distinct(s[..i]) else Distinct(s[..i]) + [s[i]]
  {
    PrefixSnoc(s, i);
    CountMapCounts(s[..i]);
  }

  /** One more element of a prefix: the unfolding facts the counting loop
      needs. */
  lemma PrefixSnoc<K>(s: seq<K>, i: nat)
    requires i < |s|
    ensures s[..i + 1][..i] == s[..i] && s[..i + 1][i] == s[i]
    ensures Distinct(s[..i + 1]) == if s[i] in s[..i] then Distinct(s[..i]) else Distinct(s[..i]) + [s[i]]
  {
    assert s[..i + 1] == s[..i] + [s[i]];
    DistinctElements(s[..i]);
  }

  lemma {:induction false} CountAppend<K>(a: seq<K>, b: seq<K>, k: K)
    ensures Count(a + b, k) == Count(a, k) + Count(b, k)
  {
    if b == [] {
      assert a + b == a;
    } else {
      assert (a + b)[..|a + b| - 1] == a + b[..|b| - 1];
      CountAppend(a, b[..|b| - 1], k);
    }
  }

  lemma CountSplit<K>(s: seq<K>, i: nat)
    requires i <= |s|
    ensures forall k :: Count(s, k) == Count(s[..i], k) + Count(s[i..], k)
  {
    assert s == s[..i] + s[i..];
    forall k ensures Count(s, k) == Count(s[..i], k) + Count(s[i..], k) {
      CountAppend(s[..i], s[i..], k);
    }
  }

  lemma {:induction false} TotalOfEntries<K>(s: seq<K>, keys: seq<K>)
    ensures Total(EntriesIn(s, keys)) == SumCounts(s, keys)
  {
    if keys != [] {
      var k' := keys[..|keys| - 1];
      assert EntriesIn(s, keys)[..|keys| - 1] == EntriesIn(s, k');
      TotalOfEntries(s, k');
    }
  }

  /** A histogram over a duplicate-free key list that covers every value
      accounts for every value exactly once. */
  lemma TallyAccountsForAll<K>(s: seq<K>, keys: seq<K>)
    requires NoDuplicates(keys)
    requires forall i :: 0 <= i < |s| ==> s[i] in keys
    ensures Total(EntriesIn(s, keys)) == |s|
  {
    TotalOfEntries(s, keys);
    SumCountsCovers(s, keys);
  }

  /** Descending count, as a key for the ascending `SortBy`. */
  function ByCountDescending<K>(e: Entry<K>): int {
    -(e.count as int)
  }

  /** `entries.sort(([,a], [,b]) => b - a).slice(0, n)`. */
  function Top<K>(entries: seq<Entry<K>>, n: nat): seq<Entry<K>> {
    Take(SortBy(entries, ByCountDescending), n)
  }

  /** The ranking keeps min(n, |entries|) of the entries, in non-increasing
      order of count, and none left out has a larger count than one kept. */
  lemma TopIsRanking<K>(entries: seq<Entry<K>>, n: nat)
    ensures |Top(entries, n)| == if |entries| < n then |entries| else n
    ensures forall i :: 0 <= i < |Top(entries, n)| ==> Top(entries, n)[i] in entries
    ensures forall i, j :: 0 <= i < j < |Top(entries, n)| ==> Top(entries, n)[i].count >= Top(entries, n)[j].count
    ensures forall j, i :: 0 <= j < |entries| && entries[j] !in Top(entries, n) && 0 <= i < |Top(entries, n)| ==>
              entries[j].count <= Top(entries, n)[i].count
  {
    var sorted := SortBy(entries, ByCountDescending);
    var top := Top(entries, n);
    forall i | 0 <= i < |top| ensures top[i] in entries {
      assert top[i] == sorted[i];
      assert sorted[i] in multiset(entries);
    }
    forall i, j | 0 <= i < j < |top| ensures top[i].count >= top[j].count {
      assert ByCountDescending(sorted[i]) <= ByCountDescending(sorted[j]);
    }
    forall j, i | 0 <= j < |entries| && entries[j] !in top && 0 <= i < |top|
      ensures entries[j].count <= top[i].count
    {
      assert entries[j] in multiset(sorted);
      var m :| 0 <= m < |sorted| && sorted[m] == entries[j];
      assert ByCountDescending(sorted[i]) <= ByCountDescending(sorted[m]);
    }
  }

  /** Equal counts keep their entry order: when `tie` ascends along the
      entries, the ranking is by count descending, then by ascending `tie`. */
  lemma TopBreaksTiesByEntryOrder<K>(entries: seq<Entry<K>>, n: nat, tie: Entry<K> -> int)
    requires StrictlyAscending(entries, tie)
    ensures LexSortedBy(Top(entries, n), ByCountDescending, tie)
  {
    SortByBreaksTiesByInputOrder(entries, ByCountDescending, tie);
  }
}
