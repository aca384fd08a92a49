/** The dictionaries the reports build with `forEach`: a key for each element
    that passes a test, in order of first appearance, and per key a count, a
    sum, a set of ids or the first element. Each is defined on a sequence by
    its last element, the way a loop over the sequence extends it. */
module Grouping {
  import opened Types
  import opened Sequences

  /** Position of `k` in `ks`: the dictionary lookup a loop keyed by strings does. */
  function IndexOf(ks: seq<string>, k: string): (r: Option<nat>)
    ensures r.None? <==> k !in ks
    ensures r.Some? ==> r.value < |ks| && ks[r.value] == k
  {
    if ks == [] then None
    else if ks[0] == k then Some(0)
    else match IndexOf(ks[1..], k)
      case None => None
      case Some(j) => Some(j + 1)
  }

  /** The keys of the elements passing `p`, each once, in order of first appearance. */
  function KeysWhere<T>(s: seq<T>, p: T -> bool, key: T -> string): seq<string>
    decreases |s|
  {
    if s == [] then []
    else
      var x := s[|s| - 1];
      var prev := KeysWhere(s[..|s| - 1], p, key);
      if p(x) && key(x) !in prev then prev + [key(x)] else prev
  }

  /** Each key is listed once, and a key is listed exactly when some element
      passing `p` carries it. */
  lemma {:induction false} KeysWhereMeaning<T>(s: seq<T>, p: T -> bool, key: T -> string)
    ensures forall i, j :: 0 <= i < j < |KeysWhere(s, p, key)| ==> KeysWhere(s, p, key)[i] != KeysWhere(s, p, key)[j]
    ensures forall k :: k in KeysWhere(s, p, key) <==> exists i :: 0 <= i < |s| && p(s[i]) && key(s[i]) == k
    decreases |s|
  {
    if s != [] {
      var init, x := s[..|s| - 1], s[|s| - 1];
      KeysWhereMeaning(init, p, key);
      var prev := KeysWhere(init, p, key);
      assert KeysWhere(s, p, key) == if p(x) && key(x) !in prev then prev + [key(x)] else prev;
      forall k
        ensures k in KeysWhere(s, p, key) <==> exists i :: 0 <= i < |s| && p(s[i]) && key(s[i]) == k
      {
        if exists i :: 0 <= i < |s| && p(s[i]) && key(s[i]) == k {
          var i :| 0 <= i < |s| && p(s[i]) && key(s[i]) == k;
          if i < |init| {
            assert init[i] == s[i];
          }
        }
        if exists i :: 0 <= i < |init| && p(init[i]) && key(init[i]) == k {
          var i :| 0 <= i < |init| && p(init[i]) && key(init[i]) == k;
          assert init[i] == s[i];
        }
      }
    }
  }

  /** How many elements passing `p` have key `k`. */
  function CountWhere<T>(s: seq<T>, p: T -> bool, key: T -> string, k: string): (n: nat)
    ensures n <= |s|
    decreases |s|
  {
    if s == [] then 0
    else
      var x := s[|s| - 1];
      CountWhere(s[..|s| - 1], p, key, k) + (if p(x) && key(x) == k then 1 else 0)
  }

  /** The sum of `f` over the elements passing `p` with key `k`. */
  function SumWhere<T>(s: seq<T>, p: T -> bool, key: T -> string, k: string, f: T -> real): real
    decreases |s|
  {
    if s == [] then 0.0
    else
      var x := s[|s| - 1];
      SumWhere(s[..|s| - 1], p, key, k, f) + (if p(x) && key(x) == k then f(x) else 0.0)
  }

  /** The ids `id(x)` of the elements passing `p` with key `k`. */
  function IdsWhere<T>(s: seq<T>, p: T -> bool, key: T -> string, k: string, id: T -> string): set<string>
    decreases |s|
  {
    if s == [] then {}
    else
      var x := s[|s| - 1];
      IdsWhere(s[..|s| - 1], p, key, k, id) + (if p(x) && key(x) == k then {id(x)} else {})
  }

  /** An id is collected exactly when some element passing `p` with key `k` has it. */
  lemma {:induction false} IdsWhereMembers<T>(s: seq<T>, p: T -> bool, key: T -> string, k: string, id: T -> string)
    ensures forall d :: d in IdsWhere(s, p, key, k, id) <==> exists i :: 0 <= i < |s| && p(s[i]) && key(s[i]) == k && id(s[i]) == d
    decreases |s|
  {
    if s != [] {
      var init := s[..|s| - 1];
      assert forall i :: 0 <= i < |init| ==> init[i] == s[i];
      IdsWhereMembers(init, p, key, k, id);
    }
  }

  /** The first element passing `p` with key `k`. */
  function FirstWhere<T>(s: seq<T>, p: T -> bool, key: T -> string, k: string): Option<T>
    decreases |s|
  {
    if s == [] then None
    else
      var x := s[|s| - 1];
      var prev := FirstWhere(s[..|s| - 1], p, key, k);
      if prev.Some? then prev
      else if p(x) && key(x) == k then Some(x)
      else None
  }

  /** There is a first element exactly when some element passes `p` with key
      `k`, and it is the earliest such element. */
  lemma {:induction false} FirstWhereMeaning<T>(s: seq<T>, p: T -> bool, key: T -> string, k: string)
    ensures FirstWhere(s, p, key, k).None? <==> forall i :: 0 <= i < |s| ==> !(p(s[i]) && key(s[i]) == k)
    ensures FirstWhere(s, p, key, k).Some? ==>
      exists i :: (0 <= i < |s| && s[i] == FirstWhere(s, p, key, k).value && p(s[i]) && key(s[i]) == k &&
                   forall j :: 0 <= j < i ==> !(p(s[j]) && key(s[j]) == k))
    decreases |s|
  {
    if s != [] {
      var init := s[..|s| - 1];
      assert forall i :: 0 <= i < |init| ==> init[i] == s[i];
      FirstWhereMeaning(init, p, key, k);
    }
  }

  /** A key is listed exactly when some element passing `p` carries it:
      listed keys count at least one element, unlisted keys none. */
  lemma {:induction false} CountWhereListed<T>(s: seq<T>, p: T -> bool, key: T -> string, k: string)
    ensures k in KeysWhere(s, p, key) ==> CountWhere(s, p, key, k) >= 1
    ensures k !in KeysWhere(s, p, key) ==> CountWhere(s, p, key, k) == 0
    decreases |s|
  {
    if s != [] {
      CountWhereListed(s[..|s| - 1], p, key, k);
    }
  }

  /** Distinct ids among the elements of a key never outnumber those elements. */
  lemma {:induction false} IdsWhereBound<T>(s: seq<T>, p: T -> bool, key: T -> string, k: string, id: T -> string)
    ensures |IdsWhere(s, p, key, k, id)| <= CountWhere(s, p, key, k)
    decreases |s|
  {
    if s != [] {
      IdsWhereBound(s[..|s| - 1], p, key, k, id);
      var x := s[|s| - 1];
      if p(x) && key(x) == k {
        var prev := IdsWhere(s[..|s| - 1], p, key, k, id);
        assert |prev + {id(x)}| <= |prev| + 1 by {
          if id(x) in prev {
            assert prev + {id(x)} == prev;
          }
        }
      }
    }
  }

  /** The counts of the keys in `ks`, summed. */
  function SumCounts<T>(ks: seq<string>, s: seq<T>, p: T -> bool, key: T -> string): nat
    decreases |ks|
  {
    if ks == [] then 0 else SumCounts(ks[..|ks| - 1], s, p, key) + CountWhere(s, p, key, ks[|ks| - 1])
  }

  /** One more element adds one to the summed counts of distinct keys
      exactly when it passes `p` and its key is among them. */
  lemma {:induction false} SumCountsStep<T>(ks: seq<string>, s: seq<T>, x: T, p: T -> bool, key: T -> string)
    requires forall i, j :: 0 <= i < j < |ks| ==> ks[i] != ks[j]
    ensures SumCounts(ks, s + [x], p, key) == SumCounts(ks, s, p, key) + (if p(x) && key(x) in ks then 1 else 0)
    decreases |ks|
  {
    assert (s + [x])[..|s|] == s;
    if ks != [] {
      var init := ks[..|ks| - 1];
      SumCountsStep(init, s, x, p, key);
      assert key(x) in ks <==> key(x) in init || key(x) == ks[|ks| - 1];
      if key(x) == ks[|ks| - 1] {
        assert key(x) !in init;
      }
    }
  }

  /** Counting by key loses no element: the counts of all listed keys add
      up to the number of elements passing `p`. */
  lemma {:induction false} SumCountsTotal<T(!new)>(s: seq<T>, p: T -> bool, key: T -> string)
    ensures SumCounts(KeysWhere(s, p, key), s, p, key) == |Filter(s, p)|
    decreases |s|
  {
    if s != [] {
      var init, x := s[..|s| - 1], s[|s| - 1];
      assert s == init + [x];
      SumCountsTotal(init, p, key);
      FilterSnoc(init, x, p);
      var ks := KeysWhere(init, p, key);
      KeysWhereMeaning(init, p, key);
      SumCountsStep(ks, init, x, p, key);
      if p(x) && key(x) !in ks {
        CountWhereListed(init, p, key, key(x));
        var ks' := ks + [key(x)];
        assert ks'[..|ks'| - 1] == ks;
      }
    }
  }

  /** Counting a set of distinct keys never counts more than the elements
      passing `p`, and counts all of them exactly when every such element's
      key is among the keys. */
  lemma {:induction false} SumCountsBound<T(!new)>(ks: seq<string>, s: seq<T>, p: T -> bool, key: T -> string)
    requires forall i, j :: 0 <= i < j < |ks| ==> ks[i] != ks[j]
    ensures SumCounts(ks, s, p, key) <= |Filter(s, p)|
    ensures SumCounts(ks, s, p, key) == |Filter(s, p)| <==> forall i :: 0 <= i < |s| && p(s[i]) ==> key(s[i]) in ks
    decreases |s|
  {
    if s == [] {
      SumCountsEmpty(ks, s, p, key);
    } else {
      var init, x := s[..|s| - 1], s[|s| - 1];
      assert s == init + [x];
      assert forall i :: 0 <= i < |init| ==> init[i] == s[i];
      SumCountsBound(ks, init, p, key);
      FilterSnoc(init, x, p);
      SumCountsStep(ks, init, x, p, key);
    }
  }

  /** Over no elements every count is zero. */
  lemma {:induction false} SumCountsEmpty<T>(ks: seq<string>, s: seq<T>, p: T -> bool, key: T -> string)
    requires s == []
    ensures SumCounts(ks, s, p, key) == 0
    decreases |ks|
  {
    if ks != [] {
      SumCountsEmpty(ks[..|ks| - 1], s, p, key);
    }
  }

  /** One more element adds one to the count of its key when it passes. */
  lemma CountWhereSnoc<T>(s: seq<T>, x: T, p: T -> bool, key: T -> string, k: string)
    ensures CountWhere(s + [x], p, key, k) == CountWhere(s, p, key, k) + (if p(x) && key(x) == k then 1 else 0)
  {
    assert (s + [x])[..|s|] == s;
  }

  /** How one more element extends each per-key value. */
  lemma WhereSnoc<T>(s: seq<T>, x: T, p: T -> bool, key: T -> string, k: string, f: T -> real, id: T -> string)
    ensures KeysWhere(s + [x], p, key) == if p(x) && key(x) !in KeysWhere(s, p, key) then KeysWhere(s, p, key) + [key(x)]
                                         else KeysWhere(s, p, key)
    ensures SumWhere(s + [x], p, key, k, f) == SumWhere(s, p, key, k, f) + (if p(x) && key(x) == k then f(x) else 0.0)
    ensures IdsWhere(s + [x], p, key, k, id) == IdsWhere(s, p, key, k, id) + (if p(x) && key(x) == k then {id(x)} else {})
    ensures FirstWhere(s + [x], p, key, k) == if FirstWhere(s, p, key, k).Some? then FirstWhere(s, p, key, k)
                                             else if p(x) && key(x) == k then Some(x) else None
  {
    assert (s + [x])[..|s|] == s;
  }

  /** A key no element passing `p` carries sums to zero, has no ids and no
      first element. */
  lemma {:induction false} UnlistedKey<T>(s: seq<T>, p: T -> bool, key: T -> string, k: string, f: T -> real, id: T -> string)
    requires k !in KeysWhere(s, p, key)
    ensures SumWhere(s, p, key, k, f) == 0.0
    ensures IdsWhere(s, p, key, k, id) == {}
    ensures FirstWhere(s, p, key, k) == None
    decreases |s|
  {
    if s != [] {
      var init := s[..|s| - 1];
      assert forall i :: 0 <= i < |init| ==> init[i] == s[i];
      UnlistedKey(init, p, key, k, f, id);
    }
  }

  /** When every element passing `p` has a positive value, a listed key sums
      to a positive value and an unlisted key to zero. */
  lemma {:induction false} SumWhereSign<T>(s: seq<T>, p: T -> bool, key: T -> string, k: string, f: T -> real)
    requires forall i :: 0 <= i < |s| && p(s[i]) ==> f(s[i]) > 0.0
    ensures k in KeysWhere(s, p, key) ==> SumWhere(s, p, key, k, f) > 0.0
    ensures k !in KeysWhere(s, p, key) ==> SumWhere(s, p, key, k, f) == 0.0
    decreases |s|
  {
    if s != [] {
      var init := s[..|s| - 1];
      assert forall i :: 0 <= i < |init| ==> init[i] == s[i];
      SumWhereSign(init, p, key, k, f);
    }
  }
}
