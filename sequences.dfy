/**
 * The array operations the listings use: a stable sort by descending numeric key
 * (what `Array.prototype.sort` does with a comparator `(a, b) => key(b) - key(a)`),
 * `filter` and `map`.
 */
module Sequences {

  ghost predicate SortedDesc<T>(s: seq<T>, key: T -> int) {
    forall i, j :: 0 <= i < j < |s| ==> key(s[i]) >= key(s[j])
  }

  /** Puts `x` before the first element whose key is not greater than its own. */
  function Insert<T>(x: T, s: seq<T>, key: T -> int): seq<T>
  {
    if s == [] || key(s[0]) <= key(x) then [x] + s else [s[0]] + Insert(x, s[1..], key)
  }

  /** Insertion sort; an element is inserted ahead of later elements with an equal key. */
  function SortDesc<T>(s: seq<T>, key: T -> int): seq<T>
  {
    if s == [] then [] else Insert(s[0], SortDesc(s[1..], key), key)
  }

  function Filter<T>(s: seq<T>, p: T -> bool): (r: seq<T>)
    ensures forall i :: 0 <= i < |r| ==> p(r[i])
  {
    if s == [] then []
    else if p(s[0]) then [s[0]] + Filter(s[1..], p)
    else Filter(s[1..], p)
  }

  function Map<T, U>(s: seq<T>, f: T -> U): (r: seq<U>)
    ensures |r| == |s| && forall i :: 0 <= i < |s| ==> r[i] == f(s[i])
  {
    if s == [] then [] else [f(s[0])] + Map(s[1..], f)
  }

  /** The elements with key `k`, in their order in `s`. */
  function WithKey<T>(s: seq<T>, key: T -> int, k: int): seq<T>
  {
    if s == [] then []
    else if key(s[0]) == k then [s[0]] + WithKey(s[1..], key, k)
    else WithKey(s[1..], key, k)
  }

  lemma {:induction false} InsertPermutes<T>(x: T, s: seq<T>, key: T -> int)
    ensures multiset(Insert(x, s, key)) == multiset(s) + multiset{x}
  {
    if s != [] && key(s[0]) > key(x) {
      InsertPermutes(x, s[1..], key);
      assert s == [s[0]] + s[1..];
    }
  }

  lemma {:induction false} InsertSorted<T>(x: T, s: seq<T>, key: T -> int)
    requires SortedDesc(s, key)
    ensures SortedDesc(Insert(x, s, key), key)
  {
    if s != [] && key(s[0]) > key(x) {
      var t := s[1..];
      InsertSorted(x, t, key);
      InsertPermutes(x, t, key);
      var r := Insert(x, t, key);
      forall i | 0 <= i < |r| ensures key(s[0]) >= key(r[i]) {
        assert r[i] in multiset(r);
        if r[i] != x {
          assert r[i] in multiset(t);
          var j :| 0 <= j < |t| && t[j] == r[i];
          assert t[j] == s[j + 1];
        }
      }
    }
  }

  /** The sort returns its input rearranged: the same elements, as often each. */
  lemma {:induction false} SortPermutes<T>(s: seq<T>, key: T -> int)
    ensures multiset(SortDesc(s, key)) == multiset(s)
  {
    if s != [] {
      SortPermutes(s[1..], key);
      InsertPermutes(s[0], SortDesc(s[1..], key), key);
      assert s == [s[0]] + s[1..];
    }
  }

  /** The sort returns its input in non-increasing key order. */
  lemma {:induction false} SortSorted<T>(s: seq<T>, key: T -> int)
    ensures SortedDesc(SortDesc(s, key), key)
  {
    if s != [] {
      SortSorted(s[1..], key);
      InsertSorted(s[0], SortDesc(s[1..], key), key);
    }
  }

  lemma {:induction false} InsertWithKey<T>(x: T, s: seq<T>, key: T -> int, k: int)
    requires SortedDesc(s, key)
    ensures WithKey(Insert(x, s, key), key, k)
         == if key(x) == k then [x] + WithKey(s, key, k) else WithKey(s, key, k)
  {
    if s != [] && key(s[0]) > key(x) {
      InsertWithKey(x, s[1..], key, k);
      assert [s[0]] + Insert(x, s[1..], key) == Insert(x, s, key);
    }
  }

  /** The sort is stable: elements with equal keys keep their relative order. */
  lemma {:induction false} SortStable<T>(s: seq<T>, key: T -> int, k: int)
    ensures WithKey(SortDesc(s, key), key, k) == WithKey(s, key, k)
  {
    if s != [] {
      SortStable(s[1..], key, k);
      SortSorted(s[1..], key);
      InsertWithKey(s[0], SortDesc(s[1..], key), key, k);
    }
  }

  lemma {:induction false} InsertMap<T, U>(x: T, s: seq<T>, key: T -> int, f: T -> U, fkey: U -> int)
    requires forall y :: fkey(f(y)) == key(y)
    ensures Map(Insert(x, s, key), f) == Insert(f(x), Map(s, f), fkey)
  {
    if s != [] {
      assert Map(s, f)[1..] == Map(s[1..], f);
      if key(s[0]) > key(x) {
        InsertMap(x, s[1..], key, f, fkey);
      }
    }
  }

  /**
   * Projecting after sorting equals sorting the projections, when the projection
   * keeps the key.
   */
  lemma {:induction false} SortMap<T, U>(s: seq<T>, key: T -> int, f: T -> U, fkey: U -> int)
    requires forall y :: fkey(f(y)) == key(y)
    ensures Map(SortDesc(s, key), f) == SortDesc(Map(s, f), fkey)
  {
    if s != [] {
      SortMap(s[1..], key, f, fkey);
      InsertMap(s[0], SortDesc(s[1..], key), key, f, fkey);
      assert Map(s, f)[1..] == Map(s[1..], f);
    }
  }

  /** An element occurs in the filtered sequence as often as in the input if it passes, else never. */
  lemma {:induction false} FilterCounts<T>(s: seq<T>, p: T -> bool, x: T)
    ensures multiset(Filter(s, p))[x] == if p(x) then multiset(s)[x] else 0
  {
    if s != [] {
      FilterCounts(s[1..], p, x);
      assert s == [s[0]] + s[1..];
    }
  }

  /** Filtering after projecting equals projecting after filtering, when the test survives the projection. */
  lemma {:induction false} FilterMap<T, U>(s: seq<T>, p: T -> bool, f: T -> U, q: U -> bool)
    requires forall y :: q(f(y)) == p(y)
    ensures Map(Filter(s, p), f) == Filter(Map(s, f), q)
  {
    if s != [] {
      FilterMap(s[1..], p, f, q);
      assert Map(s, f)[1..] == Map(s[1..], f);
    }
  }
}
