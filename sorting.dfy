/**
 * Python's `sorted(xs, key=f)` for string keys: a stable sort. It is
 * written here as an insertion sort; `StableSortIsUnique` shows that every
 * stable sort, Python's included, returns the same sequence.
 */
module Sorting {
  import opened Text

  /** No element's key is greater than the key of an element after it. */
  predicate SortedBy<T>(s: seq<T>, key: T -> string) {
    forall i, j :: 0 <= i < j < |s| ==> LexLe(key(s[i]), key(s[j]))
  }

  /** The elements of `s` whose key is `k`, in their order in `s`. */
  function WithKey<T>(s: seq<T>, key: T -> string, k: string): seq<T> {
    if s == [] then []
    else WithKey(s[..|s| - 1], key, k) + (if key(s[|s| - 1]) == k then [s[|s| - 1]] else [])
  }

  /** Puts `x` after the last element of `s` whose key is not greater than
      its own (at the front if there is none). */
  function Insert<T>(s: seq<T>, x: T, key: T -> string): (r: seq<T>)
    ensures |r| == |s| + 1
    ensures multiset(r) == multiset(s) + multiset{x}
  {
    if s == [] then [x]
    else if LexLe(key(s[|s| - 1]), key(x)) then
      s + [x]
    else
      var init, last := s[..|s| - 1], s[|s| - 1];
      assert s == init + [last];
      Insert(init, x, key) + [last]
  }

  /** Python's `sorted(s, key=key)`: a rearrangement of `s`. */
  function SortBy<T>(s: seq<T>, key: T -> string): (r: seq<T>)
    ensures |r| == |s|
    ensures multiset(r) == multiset(s)
  {
    if s == [] then []
    else
      assert s == s[..|s| - 1] + [s[|s| - 1]];
      Insert(SortBy(s[..|s| - 1], key), s[|s| - 1], key)
  }

  lemma {:induction false} InsertSorted<T>(s: seq<T>, x: T, key: T -> string)
    requires SortedBy(s, key)
    ensures SortedBy(Insert(s, x, key), key)
  {
    if s == [] {
    } else if LexLe(key(s[|s| - 1]), key(x)) {
      forall i | 0 <= i < |s| ensures LexLe(key(s[i]), key(x)) {
        if i < |s| - 1 { LexLeTransitive(key(s[i]), key(s[|s| - 1]), key(x)); }
      }
    } else {
      var init, last := s[..|s| - 1], s[|s| - 1];
      assert s == init + [last];
      InsertSorted(init, x, key);
      var front := Insert(init, x, key);
      LexLeTotal(key(last), key(x));
      forall i | 0 <= i < |front| ensures LexLe(key(front[i]), key(last)) {
        assert front[i] in multiset(front);
        if front[i] != x {
          assert front[i] in multiset(init);
          var j :| 0 <= j < |init| && init[j] == front[i];
          assert s[j] == init[j];
        }
      }
    }
  }

  /** The result of the sort is in non-decreasing key order. */
  lemma {:induction false} SortBySorted<T>(s: seq<T>, key: T -> string)
    ensures SortedBy(SortBy(s, key), key)
  {
    if s != [] {
      SortBySorted(s[..|s| - 1], key);
      InsertSorted(SortBy(s[..|s| - 1], key), s[|s| - 1], key);
    }
  }

  lemma {:induction false} WithKeySnoc<T>(s: seq<T>, x: T, key: T -> string, k: string)
    ensures WithKey(s + [x], key, k) == WithKey(s, key, k) + (if key(x) == k then [x] else [])
  {
    assert (s + [x])[..|s|] == s;
  }

  lemma {:induction false} InsertWithKey<T>(s: seq<T>, x: T, key: T -> string, k: string)
    requires SortedBy(s, key)
    ensures WithKey(Insert(s, x, key), key, k) == WithKey(s, key, k) + (if key(x) == k then [x] else [])
  {
    if s == [] {
      WithKeySnoc([], x, key, k);
      assert [] + [x] == [x];
    } else if LexLe(key(s[|s| - 1]), key(x)) {
      WithKeySnoc(s, x, key, k);
    } else {
      var init, last := s[..|s| - 1], s[|s| - 1];
      assert SortedBy(init, key);
      InsertWithKey(init, x, key, k);
      WithKeySnoc(Insert(init, x, key), last, key, k);
      if key(x) == k && key(last) == k {
        LexLeReflexive(k);
      }
    }
  }

  /** Stability: among elements with equal keys, the sort keeps input order. */
  lemma {:induction false} SortByStable<T>(s: seq<T>, key: T -> string, k: string)
    ensures WithKey(SortBy(s, key), key, k) == WithKey(s, key, k)
  {
    if s != [] {
      var init, last := s[..|s| - 1], s[|s| - 1];
      SortByStable(init, key, k);
      SortBySorted(init, key);
      InsertWithKey(SortBy(init, key), last, key, k);
    }
  }

  lemma {:induction false} WithKeyMember<T>(s: seq<T>, key: T -> string, k: string)
    requires WithKey(s, key, k) != []
    ensures exists i :: 0 <= i < |s| && key(s[i]) == k
  {
    var init, last := s[..|s| - 1], s[|s| - 1];
    if key(last) != k {
      WithKeyMember(init, key, k);
      var i :| 0 <= i < |init| && key(init[i]) == k;
      assert s[i] == init[i];
    }
  }

  lemma WithKeyOfLast<T>(s: seq<T>, key: T -> string)
    ensures s != [] ==> WithKey(s, key, key(s[|s| - 1])) != []
  {
  }

  /** In two sorted orderings with the same elements per key, the last
      elements carry the same key: the greatest one. */
  lemma LastKeysAgree<T>(r1: seq<T>, r2: seq<T>, key: T -> string)
    requires r1 != [] && r2 != []
    requires SortedBy(r1, key) && SortedBy(r2, key)
    requires forall k :: WithKey(r1, key, k) == WithKey(r2, key, k)
    ensures key(r1[|r1| - 1]) == key(r2[|r2| - 1])
  {
    var k1, k2 := key(r1[|r1| - 1]), key(r2[|r2| - 1]);
    WithKeyOfLast(r1, key);
    WithKeyOfLast(r2, key);
    assert WithKey(r2, key, k1) != [];
    WithKeyMember(r2, key, k1);
    var i2 :| 0 <= i2 < |r2| && key(r2[i2]) == k1;
    if i2 < |r2| - 1 { } else { LexLeReflexive(k1); }
    assert LexLe(k1, k2);
    assert WithKey(r1, key, k2) != [];
    WithKeyMember(r1, key, k2);
    var i1 :| 0 <= i1 < |r1| && key(r1[i1]) == k2;
    if i1 < |r1| - 1 { } else { LexLeReflexive(k2); }
    assert LexLe(k2, k1);
    LexLeAntisymmetric(k1, k2);
  }

  /** Dropping the last element of each, when both last elements carry the
      same key, keeps the per-key agreement. */
  lemma InitsAgree<T>(init1: seq<T>, last1: T, init2: seq<T>, last2: T, key: T -> string, k: string)
    requires key(last1) == key(last2)
    requires WithKey(init1 + [last1], key, k) == WithKey(init2 + [last2], key, k)
    ensures WithKey(init1, key, k) == WithKey(init2, key, k)
  {
    var u1, u2 := WithKey(init1, key, k), WithKey(init2, key, k);
    WithKeySnoc(init1, last1, key, k);
    WithKeySnoc(init2, last2, key, k);
    if k == key(last1) {
      var w := u1 + [last1];
      assert w == u2 + [last2];
      assert u1 == w[..|w| - 1] == u2;
    } else {
      AppendNothing(u1);
      AppendNothing(u2);
    }
  }

  /** Appending nothing leaves a sequence unchanged; stated once here for
      every sequence type. */
  lemma AppendNothing<T>(s: seq<T>)
    ensures s + [] == s
  {
  }

  /** Both last elements are the last entry of the same per-key sequence. */
  lemma LastsAgree<T>(init1: seq<T>, last1: T, init2: seq<T>, last2: T, key: T -> string)
    requires key(last1) == key(last2)
    requires WithKey(init1 + [last1], key, key(last1)) == WithKey(init2 + [last2], key, key(last1))
    ensures last1 == last2
  {
    var k := key(last1);
    WithKeySnoc(init1, last1, key, k);
    WithKeySnoc(init2, last2, key, k);
    var w := WithKey(init1, key, k) + [last1];
    assert w == WithKey(init2, key, k) + [last2];
    assert last1 == w[|w| - 1] == last2;
  }

  /** Two sorted orderings that agree, key by key, on the order of the
      elements are the same sequence: a stable sort has one possible result. */
  lemma {:induction false} StableSortIsUnique<T>(r1: seq<T>, r2: seq<T>, key: T -> string)
    requires SortedBy(r1, key) && SortedBy(r2, key)
    requires forall k :: WithKey(r1, key, k) == WithKey(r2, key, k)
    ensures r1 == r2
    decreases |r1| + |r2|
  {
    WithKeyOfLast(r1, key);
    WithKeyOfLast(r2, key);
    if r1 == [] && r2 == [] {
    } else if r1 == [] || r2 == [] {
      // The non-empty one has an element with its last key; the other has none.
      assert false;
    } else {
      LastKeysAgree(r1, r2, key);
      var init1, init2 := r1[..|r1| - 1], r2[..|r2| - 1];
      var last1, last2 := r1[|r1| - 1], r2[|r2| - 1];
      assert r1 == init1 + [last1] && r2 == init2 + [last2];
      forall k ensures WithKey(init1, key, k) == WithKey(init2, key, k) {
        InitsAgree(init1, last1, init2, last2, key, k);
      }
      LastsAgree(init1, last1, init2, last2, key);
      StableSortIsUnique(init1, init2, key);
    }
  }
}
