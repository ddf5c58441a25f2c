/**
 * Sequence facts shared by the analytics: occurrence counts, order-preserving
 * de-duplication (the first-seen order of a Python dict or of a `seen` set),
 * counters and groupings built by one pass over a list, filtering, Python's
 * stable `sorted`, and the slice `xs[:n]`.
 *
 * Most folds here are defined from the END of the sequence, because the
 * source builds them by appending inside a loop: the state after `i` steps is
 * the function applied to the first `i` elements.
 */
module Collections {

  // ----------------------------------------------------------------- counts

  function Count<T(==)>(s: seq<T>, x: T): nat {
    if s == [] then 0 else Count(s[..|s| - 1], x) + (if s[|s| - 1] == x then 1 else 0)
  }

  lemma CountSnoc<T>(s: seq<T>, y: T, x: T)
    ensures Count(s + [y], x) == Count(s, x) + (if y == x then 1 else 0)
  {
    assert (s + [y])[..|s|] == s;
  }

  lemma {:induction false} CountPositive<T>(s: seq<T>, x: T)
    ensures Count(s, x) > 0 <==> x in s
  {
    if s != [] {
      var p := s[..|s| - 1];
      CountPositive(p, x);
      assert s == p + [s[|s| - 1]];
    }
  }

  predicate NoDuplicates<T(==)>(s: seq<T>) {
    forall i, j :: 0 <= i < j < |s| ==> s[i] != s[j]
  }

  lemma {:induction false} CountInDistinct<T>(keys: seq<T>, x: T)
    requires NoDuplicates(keys)
    ensures Count(keys, x) == if x in keys then 1 else 0
  {
    if keys != [] {
      var p := keys[..|keys| - 1];
      CountInDistinct(p, x);
      assert keys == p + [keys[|keys| - 1]];
      CountPositive(p, x);
    }
  }

  /** The elements of `s` in order of first occurrence, each once. */
  function Distinct<T(==)>(s: seq<T>): (r: seq<T>)
    ensures NoDuplicates(r)
    ensures forall i :: 0 <= i < |r| ==> r[i] in s
    ensures forall i :: 0 <= i < |s| ==> s[i] in r
  {
    if s == [] then []
    else
      var d := Distinct(s[..|s| - 1]);
      assert s == s[..|s| - 1] + [s[|s| - 1]];
      if s[|s| - 1] in d then d else d + [s[|s| - 1]]
  }

  /** Total number of occurrences in `s` of the elements listed in `keys`. */
  function SumCounts<T(==)>(keys: seq<T>, s: seq<T>): nat {
    if keys == [] then 0 else SumCounts(keys[..|keys| - 1], s) + Count(s, keys[|keys| - 1])
  }

  lemma {:induction false} SumCountsSnoc<T>(keys: seq<T>, s: seq<T>, y: T)
    ensures SumCounts(keys, s + [y]) == SumCounts(keys, s) + Count(keys, y)
  {
    if keys != [] {
      SumCountsSnoc(keys[..|keys| - 1], s, y);
      CountSnoc(s, y, keys[|keys| - 1]);
    }
  }

  /**
   * When every element of `s` is one of the distinct `keys`, the per-key
   * counts add up to the length of `s`: each element lands in exactly one
   * bucket.
   */
  lemma {:induction false} SumCountsCover<T>(keys: seq<T>, s: seq<T>)
    requires NoDuplicates(keys)
    requires forall x :: x in s ==> x in keys
    ensures SumCounts(keys, s) == |s|
  {
    if s != [] {
      var p, y := s[..|s| - 1], s[|s| - 1];
      assert s == p + [y];
      assert forall x :: x in p ==> x in s;
      SumCountsCover(keys, p);
      SumCountsSnoc(keys, p, y);
      assert y in s;
      CountInDistinct(keys, y);
    } else {
      SumCountsNone(keys);
    }
  }

  lemma {:induction false} SumCountsNone<T>(keys: seq<T>)
    ensures SumCounts(keys, []) == 0
  {
    if keys != [] {
      SumCountsNone(keys[..|keys| - 1]);
    }
  }

  lemma SumCountsDistinct<T>(s: seq<T>)
    ensures SumCounts(Distinct(s), s) == |s|
  {
    SumCountsCover(Distinct(s), s);
  }

  // --------------------------------------------------------------- counters

  /** `counts[x] = counts.get(x, 0) + 1`. */
  function Bump<T>(counts: map<T, nat>, x: T): map<T, nat> {
    counts[x := (if x in counts then counts[x] else 0) + 1]
  }

  /** The counter dictionary a loop of `Bump`s over `s` leaves behind. */
  function Tally<T(==)>(s: seq<T>): map<T, nat> {
    if s == [] then map[] else Bump(Tally(s[..|s| - 1]), s[|s| - 1])
  }

  lemma {:induction false} TallyCounts<T>(s: seq<T>)
    ensures forall x :: x in Tally(s) <==> x in s
    ensures forall x :: x in Tally(s) ==> Tally(s)[x] == Count(s, x)
  {
    if s != [] {
      var p := s[..|s| - 1];
      TallyCounts(p);
      assert s == p + [s[|s| - 1]];
      forall x ensures x !in Tally(p) ==> Count(p, x) == 0 {
        CountPositive(p, x);
      }
    }
  }

  /** A counter with a fixed set of keys, each mapped to its number of occurrences in `s`. */
  function Counter<T(==)>(keys: seq<T>, s: seq<T>): map<T, nat> {
    map k | k in keys :: Count(s, k)
  }

  /** Counting one more element bumps its own counter and no other. */
  lemma CounterSnoc<T>(keys: seq<T>, s: seq<T>, y: T)
    requires y in keys
    ensures Counter(keys, s + [y]) == Counter(keys, s)[y := Counter(keys, s)[y] + 1]
  {
    forall k | k in keys ensures Count(s + [y], k) == Count(s, k) + (if y == k then 1 else 0) {
      CountSnoc(s, y, k);
    }
  }

  /** Bumping a counter's key is counting one more occurrence of it. */
  lemma BumpCounter<T>(keys: seq<T>, s: seq<T>, y: T)
    requires y in keys
    ensures Bump(Counter(keys, s), y) == Counter(keys, s + [y])
  {
    CounterSnoc(keys, s, y);
  }

  /** Sum of the values a counter holds for `keys`. */
  function SumValues<T>(keys: seq<T>, m: map<T, nat>): nat
    requires forall k :: k in keys ==> k in m
  {
    if keys == [] then 0 else SumValues(keys[..|keys| - 1], m) + m[keys[|keys| - 1]]
  }

  lemma {:induction false} SumValuesCounts<T>(keys: seq<T>, m: map<T, nat>, s: seq<T>)
    requires forall k :: k in keys ==> k in m && m[k] == Count(s, k)
    ensures SumValues(keys, m) == SumCounts(keys, s)
  {
    if keys != [] {
      SumValuesCounts(keys[..|keys| - 1], m, s);
    }
  }

  /**
   * A counter over distinct keys that cover every element holds as many
   * counts in total as there are elements.
   */
  lemma CounterTotal<T>(keys: seq<T>, s: seq<T>)
    requires NoDuplicates(keys)
    requires forall x :: x in s ==> x in keys
    ensures SumValues(keys, Counter(keys, s)) == |s|
  {
    SumValuesCounts(keys, Counter(keys, s), s);
    SumCountsCover(keys, s);
  }

  /** Two sequences whose positions agree on `x` and `y` hold as many of each. */
  lemma {:induction false} CountsCorrespond<T, U>(a: seq<T>, x: T, b: seq<U>, y: U)
    requires |a| == |b|
    requires forall i :: 0 <= i < |a| ==> (a[i] == x <==> b[i] == y)
    ensures Count(a, x) == Count(b, y)
  {
    if a != [] {
      CountsCorrespond(a[..|a| - 1], x, b[..|b| - 1], y);
    }
  }

  // -------------------------------------------------------------- groupings

  /** `key -> list` dictionary together with its key insertion order. */
  datatype Index<K, V> = Index(keys: seq<K>, groups: map<K, seq<V>>)

  /** `groups.setdefault(k, []).append(v)`. */
  function AddTo<K, V>(ix: Index<K, V>, k: K, v: V): Index<K, V> {
    if k in ix.groups then Index(ix.keys, ix.groups[k := ix.groups[k] + [v]])
    else Index(ix.keys + [k], ix.groups[k := [v]])
  }

  function Firsts<K, V>(pairs: seq<(K, V)>): (r: seq<K>)
    ensures |r| == |pairs| && forall i :: 0 <= i < |pairs| ==> r[i] == pairs[i].0
  {
    if pairs == [] then [] else Firsts(pairs[..|pairs| - 1]) + [pairs[|pairs| - 1].0]
  }

  /** The values paired with `k`, in order. */
  function ValuesFor<K(==), V>(pairs: seq<(K, V)>, k: K): seq<V> {
    if pairs == [] then []
    else ValuesFor(pairs[..|pairs| - 1], k) + (if pairs[|pairs| - 1].0 == k then [pairs[|pairs| - 1].1] else [])
  }

  function GroupBy<K(==), V>(pairs: seq<(K, V)>): Index<K, V> {
    if pairs == [] then Index([], map[])
    else AddTo(GroupBy(pairs[..|pairs| - 1]), pairs[|pairs| - 1].0, pairs[|pairs| - 1].1)
  }

  lemma {:induction false} GroupBySnoc<K, V>(pairs: seq<(K, V)>, k: K, v: V)
    ensures GroupBy(pairs + [(k, v)]) == AddTo(GroupBy(pairs), k, v)
  {
    var next := pairs + [(k, v)];
    assert next[..|next| - 1] == pairs;
  }

  /**
   * Grouping keeps every pair exactly once, under its own key and in input
   * order; the keys appear in first-occurrence order.
   */
  lemma {:induction false} GroupByContents<K, V>(pairs: seq<(K, V)>)
    ensures GroupBy(pairs).keys == Distinct(Firsts(pairs))
    ensures forall k :: k in GroupBy(pairs).groups <==> k in Firsts(pairs)
    ensures forall k :: k in GroupBy(pairs).groups ==> GroupBy(pairs).groups[k] == ValuesFor(pairs, k)
  {
    GroupByDomain(pairs);
    GroupByKeys(pairs);
    GroupByValues(pairs);
  }

  lemma {:induction false} GroupByDomain<K, V>(pairs: seq<(K, V)>)
    ensures forall k :: k in GroupBy(pairs).groups <==> k in Firsts(pairs)
  {
    if pairs != [] {
      var p := pairs[..|pairs| - 1];
      GroupByDomain(p);
      assert Firsts(pairs) == Firsts(p) + [pairs[|pairs| - 1].0];
    }
  }

  lemma {:induction false} GroupByKeys<K, V>(pairs: seq<(K, V)>)
    ensures GroupBy(pairs).keys == Distinct(Firsts(pairs))
  {
    if pairs != [] {
      var p := pairs[..|pairs| - 1];
      var k0 := pairs[|pairs| - 1].0;
      GroupByKeys(p);
      GroupByDomain(p);
      var f := Firsts(pairs);
      assert f == Firsts(p) + [k0];
      assert f[..|f| - 1] == Firsts(p);
      InDistinct(Firsts(p), k0);
    }
  }

  /** Membership in `Distinct(s)` is membership in `s`. */
  lemma InDistinct<T>(s: seq<T>, x: T)
    ensures x in Distinct(s) <==> x in s
  {
    if x in Distinct(s) {
      var i :| 0 <= i < |Distinct(s)| && Distinct(s)[i] == x;
    }
    if x in s {
      var i :| 0 <= i < |s| && s[i] == x;
    }
  }

  lemma {:induction false} GroupByValues<K, V>(pairs: seq<(K, V)>)
    ensures forall k :: k in GroupBy(pairs).groups ==> GroupBy(pairs).groups[k] == ValuesFor(pairs, k)
  {
    if pairs != [] {
      var p := pairs[..|pairs| - 1];
      var k0 := pairs[|pairs| - 1].0;
      GroupByValues(p);
      GroupByDomain(p);
      if k0 !in GroupBy(p).groups {
        ValuesForAbsent(p, k0);
      }
    }
  }

  lemma {:induction false} ValuesForAbsent<K, V>(pairs: seq<(K, V)>, k: K)
    requires k !in Firsts(pairs)
    ensures ValuesFor(pairs, k) == []
  {
    if pairs != [] {
      var p := pairs[..|pairs| - 1];
      assert Firsts(pairs) == Firsts(p) + [pairs[|pairs| - 1].0];
      ValuesForAbsent(p, k);
    }
  }

  lemma {:induction false} ValuesForCount<K, V>(pairs: seq<(K, V)>, k: K)
    ensures |ValuesFor(pairs, k)| == Count(Firsts(pairs), k)
  {
    if pairs != [] {
      var p := pairs[..|pairs| - 1];
      ValuesForCount(p, k);
      assert Firsts(pairs)[..|pairs| - 1] == Firsts(p);
    }
  }

  /** Sum of the group sizes over `keys`. */
  function GroupSizes<K, V>(keys: seq<K>, groups: map<K, seq<V>>): nat
    requires forall k :: k in keys ==> k in groups
  {
    if keys == [] then 0 else GroupSizes(keys[..|keys| - 1], groups) + |groups[keys[|keys| - 1]]|
  }

  /** No pair is lost or duplicated by grouping. */
  lemma GroupBySizes<K, V>(pairs: seq<(K, V)>)
    ensures forall k :: k in GroupBy(pairs).keys ==> k in GroupBy(pairs).groups
    ensures GroupSizes(GroupBy(pairs).keys, GroupBy(pairs).groups) == |pairs|
  {
    var ix := GroupBy(pairs);
    GroupByContents(pairs);
    GroupSizesAreCounts(ix.keys, pairs);
    SumCountsDistinct(Firsts(pairs));
  }

  lemma {:induction false} GroupSizesAreCounts<K, V>(keys: seq<K>, pairs: seq<(K, V)>)
    requires forall k :: k in keys ==> k in GroupBy(pairs).groups
    requires forall k :: k in GroupBy(pairs).groups ==> GroupBy(pairs).groups[k] == ValuesFor(pairs, k)
    ensures GroupSizes(keys, GroupBy(pairs).groups) == SumCounts(keys, Firsts(pairs))
  {
    if keys != [] {
      GroupSizesAreCounts(keys[..|keys| - 1], pairs);
      ValuesForCount(pairs, keys[|keys| - 1]);
    }
  }

  // -------------------------------------------------------------- filtering

  /** `[x for x in s if keep(x)]`. */
  function Filter<T>(s: seq<T>, keep: T -> bool): (r: seq<T>)
    ensures |r| <= |s|
  {
    if s == [] then [] else Filter(s[..|s| - 1], keep) + (if keep(s[|s| - 1]) then [s[|s| - 1]] else [])
  }

  lemma {:induction false} FilterMembers<T>(s: seq<T>, keep: T -> bool)
    ensures forall x :: x in Filter(s, keep) <==> x in s && keep(x)
  {
    if s != [] {
      FilterMembers(s[..|s| - 1], keep);
      assert s == s[..|s| - 1] + [s[|s| - 1]];
    }
  }

  /** A filter and its complement split the input between them. */
  lemma {:induction false} FilterSplit<T>(s: seq<T>, keep: T -> bool, drop: T -> bool)
    requires forall x :: drop(x) == !keep(x)
    ensures |Filter(s, keep)| + |Filter(s, drop)| == |s|
  {
    if s != [] {
      FilterSplit(s[..|s| - 1], keep, drop);
    }
  }

  // ---------------------------------------------------------- stable sorting

  /** A sort key: an integer, or Python's `float('inf')`. */
  datatype Rank = Finite(n: int) | Infinite

  predicate RankLe(a: Rank, b: Rank) {
    b.Infinite? || (a.Finite? && a.n <= b.n)
  }

  predicate SortedBy<T>(s: seq<T>, key: T -> Rank) {
    forall i, j :: 0 <= i < j < |s| ==> RankLe(key(s[i]), key(s[j]))
  }

  /** Puts `x` before the first element whose key is not smaller. */
  function InsertBy<T>(x: T, s: seq<T>, key: T -> Rank): seq<T> {
    if s == [] || RankLe(key(x), key(s[0])) then [x] + s else [s[0]] + InsertBy(x, s[1..], key)
  }

  /** Python's `sorted(s, key=key)`: an insertion sort, stable because an element goes before equal keys that came after it. */
  function SortBy<T>(s: seq<T>, key: T -> Rank): seq<T> {
    if s == [] then [] else InsertBy(s[0], SortBy(s[1..], key), key)
  }

  lemma {:induction false} InsertBySorted<T>(x: T, s: seq<T>, key: T -> Rank)
    requires SortedBy(s, key)
    ensures SortedBy(InsertBy(x, s, key), key)
    ensures multiset(InsertBy(x, s, key)) == multiset(s) + multiset{x}
  {
    InsertByMultiset(x, s, key);
    if s != [] && !RankLe(key(x), key(s[0])) {
      InsertBySorted(x, s[1..], key);
      var t := InsertBy(x, s[1..], key);
      assert InsertBy(x, s, key) == [s[0]] + t;
      forall k | 0 <= k < |t| ensures RankLe(key(s[0]), key(t[k])) {
        assert t[k] in multiset(s[1..]) + multiset{x};
        if t[k] != x {
          var j :| 0 <= j < |s[1..]| && s[1..][j] == t[k];
          assert s[j + 1] == t[k];
        }
      }
    }
  }

  lemma {:induction false} InsertByMultiset<T>(x: T, s: seq<T>, key: T -> Rank)
    ensures multiset(InsertBy(x, s, key)) == multiset(s) + multiset{x}
  {
    if s != [] && !RankLe(key(x), key(s[0])) {
      InsertByMultiset(x, s[1..], key);
      assert s == [s[0]] + s[1..];
      assert InsertBy(x, s, key) == [s[0]] + InsertBy(x, s[1..], key);
    }
  }

  /** Sorting only reorders. */
  lemma {:induction false} SortByPermutes<T>(s: seq<T>, key: T -> Rank)
    ensures multiset(SortBy(s, key)) == multiset(s)
  {
    SortBySorted(s, key);
  }

  lemma {:induction false} SortBySorted<T>(s: seq<T>, key: T -> Rank)
    ensures SortedBy(SortBy(s, key), key)
    ensures multiset(SortBy(s, key)) == multiset(s)
  {
    if s != [] {
      SortBySorted(s[1..], key);
      InsertBySorted(s[0], SortBy(s[1..], key), key);
      assert s == [s[0]] + s[1..];
    }
  }

  /** The elements with key `k`, in order. */
  function WithKey<T>(s: seq<T>, key: T -> Rank, k: Rank): seq<T> {
    if s == [] then [] else (if key(s[0]) == k then [s[0]] else []) + WithKey(s[1..], key, k)
  }

  lemma {:induction false} InsertByWithKey<T>(x: T, s: seq<T>, key: T -> Rank, k: Rank)
    requires SortedBy(s, key)
    ensures WithKey(InsertBy(x, s, key), key, k)
         == (if key(x) == k then [x] else []) + WithKey(s, key, k)
  {
    if s == [] || RankLe(key(x), key(s[0])) {
      assert InsertBy(x, s, key) == [x] + s;
      WithKeyCons(x, s, key, k);
    } else {
      var tail := s[1..];
      assert SortedBy(tail, key) by {
        forall i, j | 0 <= i < j < |tail| ensures RankLe(key(tail[i]), key(tail[j])) {
          assert tail[i] == s[i + 1] && tail[j] == s[j + 1];
        }
      }
      var t := InsertBy(x, tail, key);
      InsertByWithKey(x, tail, key, k);
      assert InsertBy(x, s, key) == [s[0]] + t;
      WithKeyCons(s[0], t, key, k);
      assert s == [s[0]] + tail;
      WithKeyCons(s[0], tail, key, k);
      // s[0] has a key smaller than key(x), so it cannot share key k with x
      assert key(s[0]) != key(x);
    }
  }

  lemma {:induction false} WithKeyCons<T>(a: T, t: seq<T>, key: T -> Rank, k: Rank)
    ensures WithKey([a] + t, key, k) == (if key(a) == k then [a] else []) + WithKey(t, key, k)
  {
    assert ([a] + t)[1..] == t;
  }

  /**
   * Stability: among elements with the same key the sorted order is the
   * input order.
   */
  lemma {:induction false} SortByStable<T>(s: seq<T>, key: T -> Rank, k: Rank)
    ensures WithKey(SortBy(s, key), key, k) == WithKey(s, key, k)
  {
    if s != [] {
      SortByStable(s[1..], key, k);
      SortBySorted(s[1..], key);
      InsertByWithKey(s[0], SortBy(s[1..], key), key, k);
    }
  }

  // ----------------------------------------------------------------- slices

  /** Python's `s[:n]`, negative `n` counting from the end. */
  function Take<T>(s: seq<T>, n: int): (r: seq<T>)
    ensures r <= s
  {
    if n >= 0 then (if n <= |s| then s[..n] else s)
    else if |s| + n >= 0 then s[..|s| + n] else []
  }
}
