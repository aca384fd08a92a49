/** The array operations of the pages (`filter`, `sort`, `reduce`) as
    functions on sequences. `sort` is modelled as a stable insertion sort
    driven by a "sorts strictly before" relation. */
module Sequences {

  /** The elements of `s` satisfying `p`, in their original order. */
  function Filter<T(!new)>(s: seq<T>, p: T -> bool): (r: seq<T>)
    ensures |r| <= |s|
    ensures forall x :: x in r <==> x in s && p(x)
    ensures forall i :: 0 <= i < |r| ==> p(r[i])
  {
    if s == [] then []
    else
      var init, x := s[..|s| - 1], s[|s| - 1];
      assert s == init + [x];
      Filter(init, p) + (if p(x) then [x] else [])
  }

  /** Filtering a sequence extended by one element extends the filtered
      sequence by that element when it passes. */
  lemma FilterSnoc<T(!new)>(s: seq<T>, x: T, p: T -> bool)
    ensures Filter(s + [x], p) == Filter(s, p) + (if p(x) then [x] else [])
  {
    assert (s + [x])[..|s|] == s;
  }

  /** A filter every element passes keeps the sequence as it is. */
  lemma {:induction false} FilterAllKept<T(!new)>(s: seq<T>, p: T -> bool)
    ensures (forall i :: 0 <= i < |s| ==> p(s[i])) ==> Filter(s, p) == s
  {
    if s != [] && forall i :: 0 <= i < |s| ==> p(s[i]) {
      var init := s[..|s| - 1];
      assert forall i :: 0 <= i < |init| ==> p(init[i]) by {
        forall i | 0 <= i < |init| ensures p(init[i]) {
          assert init[i] == s[i];
        }
      }
      FilterAllKept(init, p);
      assert s == init + [s[|s| - 1]];
    }
  }

  /** Appending one element to one side of a split keeps it a split of the
      extended sequence. */
  lemma PartitionStep<T>(a: seq<T>, b: seq<T>, s: seq<T>, x: T, toA: bool)
    requires |a| + |b| == |s| && multiset(a) + multiset(b) == multiset(s)
    ensures var a', b' := a + (if toA then [x] else []), b + (if toA then [] else [x]);
      |a'| + |b'| == |s + [x]| && multiset(a') + multiset(b') == multiset(s + [x])
  {
    assert multiset(s + [x]) == multiset(s) + multiset{x};
    if toA {
      assert multiset(a + [x]) == multiset(a) + multiset{x};
    } else {
      assert multiset(b + [x]) == multiset(b) + multiset{x};
    }
  }

  /** Filtering by `p` and by its complement `q` splits `s` in two. */
  lemma {:induction false} FilterPartition<T(!new)>(s: seq<T>, p: T -> bool, q: T -> bool)
    requires forall x :: q(x) == !p(x)
    ensures |Filter(s, p)| + |Filter(s, q)| == |s|
    ensures multiset(Filter(s, p)) + multiset(Filter(s, q)) == multiset(s)
  {
    if s != [] {
      var init, x := s[..|s| - 1], s[|s| - 1];
      FilterPartition(init, p, q);
      assert s == init + [x];
      PartitionStep(Filter(init, p), Filter(init, q), init, x, p(x));
    }
  }

  /** A relation every earlier/later pair of `s` satisfies still holds of
      every such pair of a filtered `s`: filtering keeps the order. */
  lemma {:induction false} FilterPairwise<T(!new)>(s: seq<T>, p: T -> bool, ok: (T, T) -> bool)
    requires forall i, j :: 0 <= i < j < |s| ==> ok(s[i], s[j])
    ensures forall i, j :: 0 <= i < j < |Filter(s, p)| ==> ok(Filter(s, p)[i], Filter(s, p)[j])
  {
    if s != [] {
      var init, x := s[..|s| - 1], s[|s| - 1];
      FilterPairwise(init, p, ok);
      var kept, r := Filter(init, p), Filter(s, p);
      assert r == kept + (if p(x) then [x] else []);
      forall i, j | 0 <= i < j < |r|
        ensures ok(r[i], r[j])
      {
        assert r[i] == kept[i];
        if j < |kept| {
          assert r[j] == kept[j];
          assert ok(kept[i], kept[j]);
        } else {
          assert r[j] == x;
          assert kept[i] in init;
          var m :| 0 <= m < |init| && init[m] == kept[i];
          assert s[m] == init[m];
          assert ok(s[m], s[|s| - 1]);
        }
      }
    }
  }

  /** The positions of `s` whose element passes `p`. */
  function Passing<T>(s: seq<T>, p: T -> bool): set<int>
  {
    set i | 0 <= i < |s| && p(s[i])
  }

  /** The length of a filtered sequence is the number of positions whose
      element passes. */
  lemma {:induction false} FilterCount<T(!new)>(s: seq<T>, p: T -> bool)
    ensures |Filter(s, p)| == |Passing(s, p)|
  {
    if s != [] {
      var init := s[..|s| - 1];
      FilterCount(init, p);
      PassingSnoc(init, s[|s| - 1], p);
      assert s == init + [s[|s| - 1]];
    }
  }

  /** Appending one element adds its position to the passing positions
      exactly when it passes. */
  lemma PassingSnoc<T>(s: seq<T>, x: T, p: T -> bool)
    ensures |Passing(s + [x], p)| == |Passing(s, p)| + (if p(x) then 1 else 0)
  {
    if p(x) {
      assert Passing(s + [x], p) == Passing(s, p) + {|s|};
    } else {
      assert Passing(s + [x], p) == Passing(s, p);
    }
  }

  /** A prefix holds no element more often than the whole sequence. */
  lemma PrefixSubMultiset<T>(s: seq<T>, n: nat)
    requires n <= |s|
    ensures multiset(s[..n]) <= multiset(s)
  {
    assert s == s[..n] + s[n..];
  }

  /** The sum of `f` over the elements of `s` (`reduce((sum, x) => sum + f(x), 0)`). */
  function SumOf<T>(s: seq<T>, f: T -> real): real
  {
    if s == [] then 0.0 else SumOf(s[..|s| - 1], f) + f(s[|s| - 1])
  }

  /** One more element adds its value to the sum. */
  lemma SumOfSnoc<T>(s: seq<T>, x: T, f: T -> real)
    ensures SumOf(s + [x], f) == SumOf(s, f) + f(x)
  {
    assert (s + [x])[..|s|] == s;
  }

  /** No later element sorts strictly before an earlier one. */
  ghost predicate SortedBy<T>(s: seq<T>, before: (T, T) -> bool)
  {
    forall i, j :: 0 <= i < j < |s| ==> !before(s[j], s[i])
  }

  /** `before` is asymmetric and "not before" is transitive: the relation a
      consistent comparator induces. */
  ghost predicate StrictWeakOrder<T(!new)>(before: (T, T) -> bool)
  {
    && (forall a, b :: before(a, b) ==> !before(b, a))
    && (forall a, b, c :: !before(a, b) && !before(b, c) ==> !before(a, c))
  }

  /** Inserts `x` ahead of the first element that does not sort strictly
      before it, so equal elements keep their order. */
  function InsertBy<T>(x: T, s: seq<T>, before: (T, T) -> bool): (r: seq<T>)
    ensures multiset(r) == multiset(s) + multiset{x}
    ensures |r| == |s| + 1
  {
    if s == [] then [x]
    else
      assert s == [s[0]] + s[1..];
      if before(s[0], x) then [s[0]] + InsertBy(x, s[1..], before)
      else [x] + s
  }

  /** Sorts `s` by `before`, keeping equal elements in their original order. */
  function SortBy<T>(s: seq<T>, before: (T, T) -> bool): (r: seq<T>)
    ensures multiset(r) == multiset(s)
    ensures |r| == |s|
  {
    if s == [] then []
    else
      assert s == [s[0]] + s[1..];
      InsertBy(s[0], SortBy(s[1..], before), before)
  }

  lemma {:induction false} InsertBySorted<T(!new)>(x: T, s: seq<T>, before: (T, T) -> bool)
    requires StrictWeakOrder(before)
    requires SortedBy(s, before)
    ensures SortedBy(InsertBy(x, s, before), before)
    decreases |s|
  {
    if s != [] {
      var r := InsertBy(x, s, before);
      if before(s[0], x) {
        var rest := InsertBy(x, s[1..], before);
        InsertBySorted(x, s[1..], before);
        assert r == [s[0]] + rest;
        forall k | 0 <= k < |rest|
          ensures !before(rest[k], s[0])
        {
          assert rest[k] in multiset(rest);
          assert rest[k] in multiset(s[1..]) || rest[k] == x;
          if rest[k] != x {
            var m :| 0 <= m < |s[1..]| && s[1..][m] == rest[k];
            assert s[m + 1] == rest[k];
          }
        }
      } else {
        assert r == [x] + s;
        forall k | 0 < k < |s|
          ensures !before(s[k], x)
        {
          assert !before(s[k], s[0]);
        }
      }
    }
  }

  /** With a consistent comparator the result is sorted; it is always a
      permutation of the input (the ensures of `SortBy`). */
  lemma {:induction false} SortBySorted<T(!new)>(s: seq<T>, before: (T, T) -> bool)
    requires StrictWeakOrder(before)
    ensures SortedBy(SortBy(s, before), before)
    decreases |s|
  {
    if s != [] {
      SortBySorted(s[1..], before);
      InsertBySorted(s[0], SortBy(s[1..], before), before);
    }
  }

  /** An element is in the sorted sequence exactly when it is in the input. */
  lemma SortByMembers<T>(s: seq<T>, before: (T, T) -> bool, x: T)
    ensures x in SortBy(s, before) <==> x in s
  {
    var r := SortBy(s, before);
    assert multiset(r) == multiset(s);
    assert x in r <==> x in multiset(r);
    assert x in s <==> x in multiset(s);
  }
}
