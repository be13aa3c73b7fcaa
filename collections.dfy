/**
 * The behaviour of Python's built-in `frozenset` and `collections.Counter` that the
 * core relies on, stated over sequences: a frozenset built from an iterable keeps one
 * copy of each element, and a Counter counts occurrences and lists its keys in the
 * order they first appear.
 */
module Collections {

  /** No element occurs twice. */
  predicate Distinct<T(==)>(s: seq<T>) {
    forall i, j :: 0 <= i < j < |s| ==> s[i] != s[j]
  }

  /** The elements of `s`, each kept at its first occurrence. */
  function Dedup<T(==)>(s: seq<T>): (d: seq<T>)
    ensures Distinct(d)
    ensures forall i :: 0 <= i < |d| ==> d[i] in s
    ensures forall i :: 0 <= i < |s| ==> s[i] in d
    ensures |d| <= |s|
  {
    if s == [] then []
    else
      var p := Dedup(s[..|s| - 1]);
      if s[|s| - 1] in p then p else p + [s[|s| - 1]]
  }

  /** A sequence without repetitions is its own deduplication. */
  lemma {:induction false} DedupOfDistinct<T>(s: seq<T>)
    requires Distinct(s)
    ensures Dedup(s) == s
  {
    if s != [] {
      var init := s[..|s| - 1];
      assert Distinct(init);
      DedupOfDistinct(init);
      assert s[|s| - 1] !in init;
      assert init + [s[|s| - 1]] == s;
    }
  }

  /** How often `x` occurs in `s`: `Counter(s)[x]`. */
  function Count<T(==)>(s: seq<T>, x: T): (n: nat)
    ensures n <= |s|
    ensures n > 0 <==> x in s
  {
    if s == [] then 0
    else Count(s[..|s| - 1], x) + (if s[|s| - 1] == x then 1 else 0)
  }

  /** The sum of the counts in `s` of the elements of `keys`. */
  function SumCounts<T(==)>(keys: seq<T>, s: seq<T>): nat {
    if keys == [] then 0
    else SumCounts(keys[..|keys| - 1], s) + Count(s, keys[|keys| - 1])
  }

  lemma {:induction false} SumCountsSnoc<T>(keys: seq<T>, s: seq<T>, y: T)
    requires Distinct(keys)
    ensures SumCounts(keys, s + [y]) == SumCounts(keys, s) + (if y in keys then 1 else 0)
  {
    if keys != [] {
      var init := keys[..|keys| - 1];
      assert Distinct(init);
      SumCountsSnoc(init, s, y);
      assert (s + [y])[..|s + [y]| - 1] == s;
      assert y in keys <==> y in init || y == keys[|keys| - 1];
      assert keys[|keys| - 1] !in init;
    }
  }

  /** The counts of a Counter add up to the length of the iterable it was built from. */
  lemma {:induction false} CountsSumToLength<T>(s: seq<T>)
    ensures SumCounts(Dedup(s), s) == |s|
  {
    if s != [] {
      var init, y := s[..|s| - 1], s[|s| - 1];
      CountsSumToLength(init);
      assert init + [y] == s;
      SumCountsSnoc(Dedup(init), init, y);
      if y !in Dedup(init) {
        var d := Dedup(init) + [y];
        assert d[..|d| - 1] == Dedup(init);
        assert Count(init, y) == 0;
      }
    }
  }
}
