/** Ordered sets as strictly sorted sequences, and grouping of records by key.

    The list constructors of the orbital spaces collect the distinct subspace
    labels of their input into an ordered set, and then build one subspace
    per label from the input records carrying that label. */
module SortedSets {

  /** `less` is a strict total order. */
  ghost predicate StrictOrder<T(!new)>(less: (T, T) -> bool)
  {
    && (forall a :: !less(a, a))
    && (forall a, b, c :: less(a, b) && less(b, c) ==> less(a, c))
    && (forall a, b :: a != b ==> less(a, b) || less(b, a))
  }

  ghost predicate Sorted<T(!new)>(s: seq<T>, less: (T, T) -> bool)
  {
    forall i, j :: 0 <= i < j < |s| ==> less(s[i], s[j])
  }

  /** Insertion into an ordered set: the element is added at its place unless
      it is already present. */
  function Insert<T(==,!new)>(s: seq<T>, x: T, less: (T, T) -> bool): (r: seq<T>)
    requires StrictOrder(less) && Sorted(s, less)
    ensures Sorted(r, less)
    ensures forall y :: y in r <==> y in s || y == x
  {
    if s == [] then [x]
    else if s[0] == x then s
    else if less(x, s[0]) then
      assert forall j :: 0 < j < |[x] + s| ==> ([x] + s)[j] == s[j - 1];
      [x] + s
    else
      var tail := Insert(s[1..], x, less);
      assert forall y :: y in s[1..] ==> less(s[0], y) by {
        forall y | y in s[1..] ensures less(s[0], y) {
          var j :| 0 <= j < |s[1..]| && s[1..][j] == y;
          assert s[j + 1] == y;
        }
      }
      assert forall j :: 0 <= j < |tail| ==> less(s[0], tail[j]) by {
        forall j | 0 <= j < |tail| ensures less(s[0], tail[j]) {
          assert tail[j] in tail;
        }
      }
      [s[0]] + tail
  }

  /** Two ordered sets with the same elements are the same sequence. */
  lemma {:induction false} SortedUnique<T(!new)>(s: seq<T>, t: seq<T>, less: (T, T) -> bool)
    requires StrictOrder(less) && Sorted(s, less) && Sorted(t, less)
    requires forall y :: y in s <==> y in t
    ensures s == t
    decreases |s|
  {
    assert s == [] <==> t == [] by {
      if s != [] { assert s[0] in s; }
      if t != [] { assert t[0] in t; }
    }
    if s != [] {
      assert s[0] in t && t[0] in s;
      assert s[0] == t[0];
      forall y ensures y in s[1..] <==> y in t[1..] {
        if y in s[1..] {
          var j :| 0 <= j < |s[1..]| && s[1..][j] == y;
          assert less(s[0], s[j + 1]);
          assert y in s && y != t[0];
        }
        if y in t[1..] {
          var j :| 0 <= j < |t[1..]| && t[1..][j] == y;
          assert less(t[0], t[j + 1]);
          assert y in t && y != s[0];
        }
      }
      SortedUnique(s[1..], t[1..], less);
      assert s == [s[0]] + s[1..];
      assert t == [t[0]] + t[1..];
    }
  }

  /** A sorted sequence has no repeated entries. */
  lemma SortedDistinct<T(!new)>(s: seq<T>, less: (T, T) -> bool, i: nat, j: nat)
    requires StrictOrder(less) && Sorted(s, less) && i < j < |s|
    ensures s[i] != s[j]
  {
    assert less(s[i], s[j]);
  }

  /** The records of `s` whose key is `k`, in input order. */
  function Filter<T(!new), K(==)>(s: seq<T>, key: T -> K, k: K): (r: seq<T>)
    ensures |r| <= |s|
    ensures forall x :: x in r ==> x in s && key(x) == k
  {
    if s == [] then []
    else Filter(s[..|s| - 1], key, k) + (if key(s[|s| - 1]) == k then [s[|s| - 1]] else [])
  }

  /** Filtering one more record of a prefix. */
  lemma FilterPrefixStep<T(!new), K>(s: seq<T>, key: T -> K, k: K, i: nat)
    requires i < |s|
    ensures key(s[i]) == k ==> Filter(s[..i + 1], key, k) == Filter(s[..i], key, k) + [s[i]]
    ensures key(s[i]) != k ==> Filter(s[..i + 1], key, k) == Filter(s[..i], key, k)
  {
    assert s[..i + 1][..i] == s[..i];
    assert Filter(s[..i], key, k) + [] == Filter(s[..i], key, k);
  }

  /** Filter keeps every matching record: it is the matching records in order. */
  lemma {:induction false} FilterComplete<T(!new), K>(s: seq<T>, key: T -> K, k: K)
    ensures forall x :: x in s && key(x) == k ==> x in Filter(s, key, k)
    ensures multiset(Filter(s, key, k)) <= multiset(s)
  {
    if s != [] {
      FilterComplete(s[..|s| - 1], key, k);
      assert s == s[..|s| - 1] + [s[|s| - 1]];
    }
  }

  /** The records of `s` whose key is in `ks`, in input order. */
  function FilterIn<T(!new), K(==)>(s: seq<T>, key: T -> K, ks: seq<K>): seq<T>
  {
    if s == [] then []
    else FilterIn(s[..|s| - 1], key, ks) + (if key(s[|s| - 1]) in ks then [s[|s| - 1]] else [])
  }

  /** The groups of `s` for the keys `ks`, one after another in key order. */
  function Grouped<T(!new), K(==)>(s: seq<T>, key: T -> K, ks: seq<K>): seq<T>
  {
    if ks == [] then [] else Grouped(s, key, ks[..|ks| - 1]) + Filter(s, key, ks[|ks| - 1])
  }

  lemma {:induction false} FilterInSplit<T(!new), K>(s: seq<T>, key: T -> K, ks: seq<K>, k: K)
    requires k !in ks
    ensures multiset(FilterIn(s, key, ks + [k])) == multiset(FilterIn(s, key, ks)) + multiset(Filter(s, key, k))
  {
    if s != [] {
      FilterInSplit(s[..|s| - 1], key, ks, k);
    }
  }

  lemma {:induction false} FilterInAll<T(!new), K>(s: seq<T>, key: T -> K, ks: seq<K>)
    requires forall i :: 0 <= i < |s| ==> key(s[i]) in ks
    ensures FilterIn(s, key, ks) == s
  {
    if s != [] {
      FilterInAll(s[..|s| - 1], key, ks);
      assert s == s[..|s| - 1] + [s[|s| - 1]];
    }
  }

  lemma {:induction false} GroupedFilterIn<T(!new), K>(s: seq<T>, key: T -> K, ks: seq<K>)
    requires forall i, j :: 0 <= i < j < |ks| ==> ks[i] != ks[j]
    ensures multiset(Grouped(s, key, ks)) == multiset(FilterIn(s, key, ks))
  {
    if ks == [] {
      assert FilterIn(s, key, ks) == [] by { FilterInNone(s, key, ks); }
    } else {
      var init, k := ks[..|ks| - 1], ks[|ks| - 1];
      GroupedFilterIn(s, key, init);
      FilterInSplit(s, key, init, k);
      assert init + [k] == ks;
    }
  }

  lemma {:induction false} FilterInNone<T(!new), K>(s: seq<T>, key: T -> K, ks: seq<K>)
    requires ks == []
    ensures FilterIn(s, key, ks) == []
  {
    if s != [] {
      FilterInNone(s[..|s| - 1], key, ks);
    }
  }

  /** Grouping by a list of distinct keys that covers every record is a
      permutation: no record is lost or duplicated. */
  lemma GroupedPermutation<T(!new), K>(s: seq<T>, key: T -> K, ks: seq<K>)
    requires forall i, j :: 0 <= i < j < |ks| ==> ks[i] != ks[j]
    requires forall i :: 0 <= i < |s| ==> key(s[i]) in ks
    ensures multiset(Grouped(s, key, ks)) == multiset(s)
  {
    GroupedFilterIn(s, key, ks);
    FilterInAll(s, key, ks);
  }
}
