/**
 * The LINQ operators the engine is built from, as functions on sequences:
 * `Where` (Filter), `Distinct` with a key (DistinctBy), the stable
 * `OrderBy` (SortBy), `GroupBy` and `Take`, each with the properties the
 * engine's callers depend on.
 */
module Seqs {

  /** `s.Where(p)`. */
  function Filter<T(==)>(s: seq<T>, p: T -> bool): (r: seq<T>)
    ensures |r| <= |s|
    ensures forall k :: 0 <= k < |r| ==> r[k] in s && p(r[k])
    ensures forall k :: 0 <= k < |s| && p(s[k]) ==> s[k] in r
  {
    if s == [] then [] else (if p(s[0]) then [s[0]] else []) + Filter(s[1..], p)
  }

  lemma {:induction false} FilterConcat<T>(a: seq<T>, b: seq<T>, p: T -> bool)
    ensures Filter(a + b, p) == Filter(a, p) + Filter(b, p)
  {
    if a != [] {
      assert (a + b)[1..] == a[1..] + b;
      FilterConcat(a[1..], b, p);
    } else {
      assert a + b == b;
    }
  }

  /** A filter keeps everything exactly when every element passes. */
  lemma {:induction false} FilterAll<T>(s: seq<T>, p: T -> bool)
    requires forall k :: 0 <= k < |s| ==> p(s[k])
    ensures Filter(s, p) == s
  {
    if s != [] {
      FilterAll(s[1..], p);
    }
  }

  /** A filter keeps nothing exactly when no element passes. */
  lemma FilterEmpty<T>(s: seq<T>, p: T -> bool)
    ensures Filter(s, p) == [] <==> forall k :: 0 <= k < |s| ==> !p(s[k])
  {
    if Filter(s, p) == [] {
      forall k | 0 <= k < |s| ensures !p(s[k]) {
        assert s[k] in s;
      }
    } else {
      assert Filter(s, p)[0] in s;
    }
  }

  /** An element of `s` is kept by the filter exactly when it passes the test. */
  lemma FilterMember<T>(s: seq<T>, p: T -> bool)
    ensures forall i :: 0 <= i < |s| ==> (s[i] in Filter(s, p) <==> p(s[i]))
  {
    var r := Filter(s, p);
    forall i | 0 <= i < |s| && s[i] in r ensures p(s[i]) {
      var k :| 0 <= k < |r| && r[k] == s[i];
    }
  }

  /** Filtering a non-empty sequence: the filtered prefix, then the last element if it passes. */
  lemma FilterSnoc<T>(s: seq<T>, p: T -> bool)
    requires s != []
    ensures Filter(s, p) == Filter(s[..|s| - 1], p) + (if p(s[|s| - 1]) then [s[|s| - 1]] else [])
  {
    var init := s[..|s| - 1];
    var last := s[|s| - 1];
    assert s == init + [last];
    FilterConcat(init, [last], p);
    assert [last][1..] == [];
  }

  /** The filter keeps exactly the elements of `s` that pass the test. */
  lemma FilterContains<T>(s: seq<T>, p: T -> bool)
    ensures forall x :: x in Filter(s, p) <==> x in s && p(x)
  {
    var r := Filter(s, p);
    forall x | x in r ensures x in s && p(x) {
      var k :| 0 <= k < |r| && r[k] == x;
    }
    forall x | x in s && p(x) ensures x in r {
      var k :| 0 <= k < |s| && s[k] == x;
    }
  }

  /**
   * Two complementary filters split `s`: each element passes exactly one,
   * so their lengths add up to `|s|`.
   */
  lemma {:induction false} FilterComplement<T>(s: seq<T>, p: T -> bool, q: T -> bool)
    requires forall k :: 0 <= k < |s| ==> q(s[k]) == !p(s[k])
    ensures |Filter(s, p)| + |Filter(s, q)| == |s|
  {
    if s != [] {
      FilterComplement(s[1..], p, q);
    }
  }

  /** A weaker test keeps at least as much. */
  lemma {:induction false} FilterMonotone<T>(s: seq<T>, p: T -> bool, q: T -> bool)
    requires forall k :: 0 <= k < |s| && p(s[k]) ==> q(s[k])
    ensures |Filter(s, p)| <= |Filter(s, q)|
  {
    if s != [] {
      FilterMonotone(s[1..], p, q);
    }
  }

  /** `s.Select(f)`. */
  function Map<T, U>(s: seq<T>, f: T -> U): (r: seq<U>)
    ensures |r| == |s|
    ensures forall k :: 0 <= k < |s| ==> r[k] == f(s[k])
  {
    if s == [] then [] else [f(s[0])] + Map(s[1..], f)
  }

  /** `s.SelectMany(f)`: the concatenation of `f(x)` over `s`. */
  function FlatMap<T, U>(s: seq<T>, f: T -> seq<U>): seq<U>
  {
    if s == [] then [] else f(s[0]) + FlatMap(s[1..], f)
  }

  lemma {:induction false} FlatMapConcat<T, U>(a: seq<T>, b: seq<T>, f: T -> seq<U>)
    ensures FlatMap(a + b, f) == FlatMap(a, f) + FlatMap(b, f)
  {
    if a != [] {
      assert (a + b)[1..] == a[1..] + b;
      FlatMapConcat(a[1..], b, f);
    } else {
      assert a + b == b;
    }
  }

  /** An element of `s.SelectMany(f)` comes from the image of some element of `s`. */
  lemma {:induction false} FlatMapMember<T, U>(s: seq<T>, f: T -> seq<U>, y: U)
    ensures y in FlatMap(s, f) <==> exists x :: x in s && y in f(x)
  {
    if s != [] {
      FlatMapMember(s[1..], f, y);
      assert forall x :: x in s <==> x == s[0] || x in s[1..];
    }
  }

  /** The keys of the elements of `s`. */
  function KeySet<T(==), K(==)>(s: seq<T>, key: T -> K): set<K> {
    set x | x in s :: key(x)
  }

  /** `s.Take(n)`. */
  function Take<T>(s: seq<T>, n: nat): (r: seq<T>)
    ensures |r| == if |s| < n then |s| else n
    ensures r <= s
  {
    if |s| < n then s else s[..n]
  }

  // ---------------------------------------------------------------------------
  // Distinct with a key (`Distinct(comparer)` and the HashSet-guarded loop)
  // ---------------------------------------------------------------------------

  /**
   * The elements of `s` whose key has not been seen before, in order. Built
   * as the source's loops build it: walk `s`, append an element unless an
   * element with the same key has already been appended.
   */
  function DistinctBy<T(==), K(==)>(s: seq<T>, key: T -> K): (r: seq<T>)
    ensures KeySet(r, key) == KeySet(s, key)
    ensures forall k :: 0 <= k < |r| ==> r[k] in s
    decreases |s|
  {
    if s == [] then []
    else
      var prev := DistinctBy(s[..|s| - 1], key);
      var last := s[|s| - 1];
      assert s == s[..|s| - 1] + [last];
      assert KeySet(s, key) == KeySet(s[..|s| - 1], key) + {key(last)};
      if key(last) in KeySet(prev, key) then prev
      else
        assert KeySet(prev + [last], key) == KeySet(prev, key) + {key(last)};
        prev + [last]
  }

  /** DistinctBy keeps a subsequence, so it keeps a sorted order too. */
  lemma {:induction false} DistinctBySorted<T, K>(s: seq<T>, key: T -> K, order: T -> int)
    requires SortedBy(s, order)
    ensures SortedBy(DistinctBy(s, key), order)
    decreases |s|
  {
    if s != [] {
      var p := s[..|s| - 1];
      var last := s[|s| - 1];
      assert SortedBy(p, order);
      DistinctBySorted(p, key, order);
      var prev := DistinctBy(p, key);
      forall j | 0 <= j < |prev| ensures order(prev[j]) <= order(last) {
        assert prev[j] in p;
      }
    }
  }

  /** The index of the first element of `s` with key `k`. */
  function FirstIndex<T(==), K(==)>(s: seq<T>, key: T -> K, k: K): (i: nat)
    requires k in KeySet(s, key)
    ensures i < |s| && key(s[i]) == k
    ensures forall j :: 0 <= j < i ==> key(s[j]) != k
  {
    if key(s[0]) == k then 0
    else
      assert k in KeySet(s[1..], key) by {
        var x :| x in s && key(x) == k;
        assert x != s[0];
      }
      1 + FirstIndex(s[1..], key, k)
  }

  lemma FirstIndexUnique<T, K>(s: seq<T>, key: T -> K, k: K, i: nat)
    requires k in KeySet(s, key)
    requires i < |s| && key(s[i]) == k
    requires forall j :: 0 <= j < i ==> key(s[j]) != k
    ensures FirstIndex(s, key, k) == i
  {
  }

  /** No two elements of `r` share a key. */
  predicate KeysUnique<T(==), K(==)>(r: seq<T>, key: T -> K) {
    forall i, j :: 0 <= i < j < |r| ==> key(r[i]) != key(r[j])
  }

  /** The first occurrence of a key in a prefix is its first occurrence in the whole sequence. */
  lemma FirstIndexOfPrefix<T, K>(s: seq<T>, n: nat, key: T -> K, k: K)
    requires n <= |s| && k in KeySet(s[..n], key)
    ensures k in KeySet(s, key) && FirstIndex(s, key, k) == FirstIndex(s[..n], key, k)
  {
    var t := s[..n];
    var i := FirstIndex(t, key, k);
    assert s[i] == t[i];
    assert s[i] in s;
    forall j | 0 <= j < i ensures key(s[j]) != k {
      assert s[j] == t[j];
    }
    FirstIndexUnique(s, key, k, i);
  }

  /** A key that the first `n` elements lack, held by element `n`, first occurs at `n`. */
  lemma FirstIndexOfNewKey<T, K>(s: seq<T>, n: nat, key: T -> K)
    requires n < |s| && key(s[n]) !in KeySet(s[..n], key)
    ensures key(s[n]) in KeySet(s, key) && FirstIndex(s, key, key(s[n])) == n
  {
    forall j | 0 <= j < n ensures key(s[j]) != key(s[n]) {
      assert s[..n][j] == s[j];
    }
    FirstIndexUnique(s, key, key(s[n]), n);
  }

  /** An element whose key is not among the kept ones differs in key from each of them. */
  lemma NewKeyDiffers<T, K>(prev: seq<T>, key: T -> K, x: T)
    requires key(x) !in KeySet(prev, key)
    ensures forall j :: 0 <= j < |prev| ==> key(prev[j]) != key(x)
  {
    forall j | 0 <= j < |prev| ensures key(prev[j]) != key(x) {
      assert prev[j] in prev;
    }
  }

  /** DistinctBy keeps no key twice. */
  lemma {:induction false} DistinctByUnique<T, K>(s: seq<T>, key: T -> K)
    ensures KeysUnique(DistinctBy(s, key), key)
    decreases |s|
  {
    if s != [] {
      var p := s[..|s| - 1];
      var last := s[|s| - 1];
      var prev := DistinctBy(p, key);
      DistinctByUnique(p, key);
      if key(last) !in KeySet(prev, key) {
        NewKeyDiffers(prev, key, last);
        var r := prev + [last];
        forall i, j | 0 <= i < j < |r| ensures key(r[i]) != key(r[j]) {
          assert r[i] == prev[i];
          if j < |prev| {
            assert r[j] == prev[j];
          }
        }
      }
    }
  }

  /** Each element DistinctBy keeps is the first element of `s` with its key. */
  lemma {:induction false} DistinctByKeepsFirst<T, K>(s: seq<T>, key: T -> K)
    ensures forall j :: 0 <= j < |DistinctBy(s, key)| ==>
      key(DistinctBy(s, key)[j]) in KeySet(s, key) &&
      DistinctBy(s, key)[j] == s[FirstIndex(s, key, key(DistinctBy(s, key)[j]))]
    decreases |s|
  {
    if s != [] {
      var n := |s| - 1;
      var p := s[..n];
      var prev := DistinctBy(p, key);
      var r := DistinctBy(s, key);
      DistinctByKeepsFirst(p, key);
      forall j | 0 <= j < |r|
        ensures key(r[j]) in KeySet(s, key) && r[j] == s[FirstIndex(s, key, key(r[j]))]
      {
        if j < |prev| {
          assert r[j] == prev[j];
          FirstIndexOfPrefix(s, n, key, key(prev[j]));
          assert s[FirstIndex(p, key, key(prev[j]))] == p[FirstIndex(p, key, key(prev[j]))];
        } else {
          assert r[j] == s[n];
          FirstIndexOfNewKey(s, n, key);
        }
      }
    }
  }

  /** DistinctBy keeps the elements in the order of their keys' first occurrences. */
  lemma {:induction false} DistinctByOrder<T, K>(s: seq<T>, key: T -> K)
    ensures forall i, j :: 0 <= i < j < |DistinctBy(s, key)| ==>
      FirstIndex(s, key, key(DistinctBy(s, key)[i])) < FirstIndex(s, key, key(DistinctBy(s, key)[j]))
    decreases |s|
  {
    if s != [] {
      var n := |s| - 1;
      var p := s[..n];
      var prev := DistinctBy(p, key);
      var r := DistinctBy(s, key);
      DistinctByOrder(p, key);
      forall i, j | 0 <= i < j < |r|
        ensures FirstIndex(s, key, key(r[i])) < FirstIndex(s, key, key(r[j]))
      {
        assert r[i] == prev[i];
        FirstIndexOfPrefix(s, n, key, key(prev[i]));
        if j < |prev| {
          assert r[j] == prev[j];
          FirstIndexOfPrefix(s, n, key, key(prev[j]));
        } else {
          assert r[j] == s[n];
          FirstIndexOfNewKey(s, n, key);
          assert FirstIndex(p, key, key(prev[i])) < n;
        }
      }
    }
  }

  /**
   * What DistinctBy keeps: no key twice, every key of `s`, each kept element
   * is the FIRST element of `s` with its key, and the kept elements appear in
   * the order of those first occurrences.
   */
  lemma DistinctByFirstSeen<T, K>(s: seq<T>, key: T -> K)
    ensures KeysUnique(DistinctBy(s, key), key)
    ensures forall j :: 0 <= j < |DistinctBy(s, key)| ==>
      key(DistinctBy(s, key)[j]) in KeySet(s, key) &&
      DistinctBy(s, key)[j] == s[FirstIndex(s, key, key(DistinctBy(s, key)[j]))]
    ensures forall i, j :: 0 <= i < j < |DistinctBy(s, key)| ==>
      FirstIndex(s, key, key(DistinctBy(s, key)[i])) < FirstIndex(s, key, key(DistinctBy(s, key)[j]))
  {
    DistinctByUnique(s, key);
    DistinctByKeepsFirst(s, key);
    DistinctByOrder(s, key);
  }

  // ---------------------------------------------------------------------------
  // Stable sort by an integer key (`OrderBy`, `OrderByDescending`)
  // ---------------------------------------------------------------------------

  /** The elements of `s` with key `k`, in order. */
  function WithKey<T(==), K(==)>(s: seq<T>, key: T -> K, k: K): seq<T> {
    if s == [] then [] else (if key(s[0]) == k then [s[0]] else []) + WithKey(s[1..], key, k)
  }

  predicate SortedBy<T>(s: seq<T>, key: T -> int) {
    forall i, j :: 0 <= i < j < |s| ==> key(s[i]) <= key(s[j])
  }

  /** In a sorted sequence an element with a smaller key comes earlier. */
  lemma SmallerKeyComesFirst<T>(s: seq<T>, key: T -> int, i: nat, j: nat)
    requires SortedBy(s, key) && i < |s| && j < |s| && key(s[j]) < key(s[i])
    ensures j < i
  {
  }

  /** Puts `x` before the first element whose key is not smaller than its own. */
  function Insert<T>(x: T, s: seq<T>, key: T -> int): (r: seq<T>)
    ensures |r| == |s| + 1
  {
    if s == [] then [x]
    else if key(x) <= key(s[0]) then [x] + s
    else [s[0]] + Insert(x, s[1..], key)
  }

  /** Insert adds exactly `x`. */
  lemma {:induction false} InsertPermutes<T>(x: T, s: seq<T>, key: T -> int)
    ensures multiset(Insert(x, s, key)) == multiset(s) + multiset{x}
  {
    if s != [] && key(x) > key(s[0]) {
      var t := Insert(x, s[1..], key);
      InsertPermutes(x, s[1..], key);
      assert s == [s[0]] + s[1..];
      assert multiset([s[0]] + t) == multiset{s[0]} + multiset(t);
    }
  }

  /** Insert keeps a lower bound that `x` and every element of `s` respect. */
  lemma {:induction false} InsertBounded<T>(x: T, s: seq<T>, key: T -> int, b: int)
    requires b <= key(x) && forall k :: 0 <= k < |s| ==> b <= key(s[k])
    ensures forall k :: 0 <= k < |Insert(x, s, key)| ==> b <= key(Insert(x, s, key)[k])
  {
    if s != [] {
      var r := Insert(x, s, key);
      if key(x) <= key(s[0]) {
        assert r == [x] + s;
        forall k | 0 <= k < |r| ensures b <= key(r[k]) {
          if k > 0 {
            assert r[k] == s[k - 1];
          }
        }
      } else {
        var rest := s[1..];
        forall k | 0 <= k < |rest| ensures b <= key(rest[k]) {
          assert rest[k] == s[k + 1];
        }
        InsertBounded(x, rest, key, b);
        var t := Insert(x, rest, key);
        assert r == [s[0]] + t;
        forall k | 0 <= k < |r| ensures b <= key(r[k]) {
          if k > 0 {
            assert r[k] == t[k - 1];
          }
        }
      }
    }
  }

  /** Insert keeps a sorted sequence sorted. */
  lemma {:induction false} InsertSorted<T>(x: T, s: seq<T>, key: T -> int)
    requires SortedBy(s, key)
    ensures SortedBy(Insert(x, s, key), key)
  {
    if s != [] {
      var r := Insert(x, s, key);
      if key(x) <= key(s[0]) {
        assert r == [x] + s;
        forall i, j | 0 <= i < j < |r| ensures key(r[i]) <= key(r[j]) {
          assert r[j] == s[j - 1];
          if i > 0 {
            assert r[i] == s[i - 1];
          } else {
            assert key(s[0]) <= key(s[j - 1]);
          }
        }
      } else {
        var rest := s[1..];
        assert SortedBy(rest, key) by {
          forall i, j | 0 <= i < j < |rest| ensures key(rest[i]) <= key(rest[j]) {
            assert rest[i] == s[i + 1] && rest[j] == s[j + 1];
          }
        }
        forall k | 0 <= k < |rest| ensures key(s[0]) <= key(rest[k]) {
          assert rest[k] == s[k + 1];
        }
        InsertSorted(x, rest, key);
        InsertBounded(x, rest, key, key(s[0]));
        var t := Insert(x, rest, key);
        assert r == [s[0]] + t;
        forall i, j | 0 <= i < j < |r| ensures key(r[i]) <= key(r[j]) {
          assert r[j] == t[j - 1];
          if i > 0 {
            assert r[i] == t[i - 1];
          }
        }
      }
    }
  }

  /**
   * LINQ's `OrderBy(key)`: a stable sort. Built as an insertion sort that
   * inserts each element in front of the sorted rest.
   */
  function SortBy<T>(s: seq<T>, key: T -> int): (r: seq<T>)
    ensures multiset(r) == multiset(s)
    ensures |r| == |s|
    ensures SortedBy(r, key)
  {
    if s == [] then []
    else
      assert s == [s[0]] + s[1..];
      InsertPermutes(s[0], SortBy(s[1..], key), key);
      InsertSorted(s[0], SortBy(s[1..], key), key);
      Insert(s[0], SortBy(s[1..], key), key)
  }

  lemma WithKeyCons<T, K>(y: T, t: seq<T>, key: T -> K, k: K)
    ensures WithKey([y] + t, key, k) == (if key(y) == k then [y] else []) + WithKey(t, key, k)
  {
    assert ([y] + t)[1..] == t;
  }

  /** Inserting `x` adds it in front of the elements that share its key, and changes no other key's elements. */
  lemma {:induction false} InsertStable<T>(x: T, s: seq<T>, key: T -> int, k: int)
    ensures WithKey(Insert(x, s, key), key, k) == (if key(x) == k then [x] else []) + WithKey(s, key, k)
  {
    if s == [] || key(x) <= key(s[0]) {
      assert Insert(x, s, key) == [x] + s;
      WithKeyCons(x, s, key, k);
    } else {
      var rest := s[1..];
      var t := Insert(x, rest, key);
      var hx := if key(x) == k then [x] else [];
      var h0 := if key(s[0]) == k then [s[0]] else [];
      InsertStable(x, rest, key, k);
      assert Insert(x, s, key) == [s[0]] + t;
      WithKeyCons(s[0], t, key, k);
      assert s == [s[0]] + rest;
      WithKeyCons(s[0], rest, key, k);
      assert h0 == [] || hx == [];
      assert h0 + (hx + WithKey(rest, key, k)) == hx + (h0 + WithKey(rest, key, k));
    }
  }

  /**
   * SortBy is stable: the elements that share a key keep their relative
   * order, i.e. for every key the sorted sequence and the input have the
   * same subsequence of elements with that key.
   */
  lemma {:induction false} SortByStable<T>(s: seq<T>, key: T -> int, k: int)
    ensures WithKey(SortBy(s, key), key, k) == WithKey(s, key, k)
  {
    if s != [] {
      SortByStable(s[1..], key, k);
      InsertStable(s[0], SortBy(s[1..], key), key, k);
      WithKeyCons(s[0], s[1..], key, k);
      assert s == [s[0]] + s[1..];
    }
  }

  // ---------------------------------------------------------------------------
  // GroupBy
  // ---------------------------------------------------------------------------

  datatype Group<K, T> = Group(key: K, items: seq<T>)

  /**
   * LINQ's `GroupBy(key)`: one group per distinct key, in order of the key's
   * first appearance, each holding the elements with that key in their
   * original order.
   */
  function GroupBy<T(==), K(==)>(s: seq<T>, key: T -> K): (gs: seq<Group<K, T>>)
    ensures |gs| == |DistinctBy(s, key)|
  {
    var firsts := DistinctBy(s, key);
    seq(|firsts|, i requires 0 <= i < |firsts| => Group(key(firsts[i]), WithKey(s, key, key(firsts[i]))))
  }

  lemma {:induction false} WithKeyMember<T, K>(s: seq<T>, key: T -> K, k: K)
    ensures forall x :: x in WithKey(s, key, k) <==> x in s && key(x) == k
  {
    if s != [] {
      WithKeyMember(s[1..], key, k);
      assert forall x :: x in s <==> x == s[0] || x in s[1..];
    }
  }

  /** Each group's key with `f` applied to its items, in the groups' order. */
  function MapItems<K, T, U>(gs: seq<Group<K, T>>, f: seq<T> --> U): (r: seq<(K, U)>)
    requires forall k :: 0 <= k < |gs| ==> f.requires(gs[k].items)
    ensures |r| == |gs|
    ensures forall k :: 0 <= k < |gs| ==> r[k] == (gs[k].key, f(gs[k].items))
  {
    if gs == [] then []
    else
      assert forall k :: 0 <= k < |gs| - 1 ==> gs[1..][k] == gs[k + 1];
      [(gs[0].key, f(gs[0].items))] + MapItems(gs[1..], f)
  }

  /** Every group is non-empty and no two groups share a key. */
  lemma GroupByDistinctKeys<T, K>(s: seq<T>, key: T -> K)
    ensures forall g :: 0 <= g < |GroupBy(s, key)| ==> GroupBy(s, key)[g].items != []
    ensures forall g, h :: 0 <= g < h < |GroupBy(s, key)| ==> GroupBy(s, key)[g].key != GroupBy(s, key)[h].key
  {
    var firsts := DistinctBy(s, key);
    var gs := GroupBy(s, key);
    DistinctByFirstSeen(s, key);
    forall g | 0 <= g < |gs| ensures gs[g].items != [] {
      WithKeyMember(s, key, gs[g].key);
      assert firsts[g] in s;
    }
  }

  /** Every element of `s` has a group with its key. */
  lemma GroupByCovers<T, K>(s: seq<T>, key: T -> K)
    ensures forall i :: 0 <= i < |s| ==> exists g :: 0 <= g < |GroupBy(s, key)| && GroupBy(s, key)[g].key == key(s[i])
  {
    var firsts := DistinctBy(s, key);
    var gs := GroupBy(s, key);
    forall i | 0 <= i < |s| ensures exists g :: 0 <= g < |gs| && gs[g].key == key(s[i]) {
      assert key(s[i]) in KeySet(s, key);
      assert key(s[i]) in KeySet(firsts, key);
      var y :| y in firsts && key(y) == key(s[i]);
      var g :| 0 <= g < |firsts| && firsts[g] == y;
      assert gs[g].key == key(s[i]);
    }
  }

  /** The groups partition `s` by key: distinct keys, each element's key has a group, each group holds exactly its key's elements. */
  lemma GroupByPartition<T, K>(s: seq<T>, key: T -> K)
    ensures forall g, h :: 0 <= g < h < |GroupBy(s, key)| ==> GroupBy(s, key)[g].key != GroupBy(s, key)[h].key
    ensures forall i :: 0 <= i < |s| ==> exists g :: 0 <= g < |GroupBy(s, key)| && GroupBy(s, key)[g].key == key(s[i])
    ensures forall g :: 0 <= g < |GroupBy(s, key)| ==>
      forall x :: x in GroupBy(s, key)[g].items <==> x in s && key(x) == GroupBy(s, key)[g].key
  {
    GroupByDistinctKeys(s, key);
    forall g | 0 <= g < |GroupBy(s, key)|
      ensures forall x :: x in GroupBy(s, key)[g].items <==> x in s && key(x) == GroupBy(s, key)[g].key
    {
      GroupByItems(s, key, g);
    }
    GroupByCovers(s, key);
    // a ground occurrence of the grouping, so that the witness groups of the call above match the goal
    assert |GroupBy(s, key)| >= 0;
  }

  /** A group holds exactly the elements of `s` with its key, in their order. */
  lemma GroupByItems<T, K>(s: seq<T>, key: T -> K, g: nat)
    requires g < |GroupBy(s, key)|
    ensures GroupBy(s, key)[g].items == WithKey(s, key, GroupBy(s, key)[g].key)
    ensures forall x :: x in GroupBy(s, key)[g].items <==> x in s && key(x) == GroupBy(s, key)[g].key
  {
    WithKeyMember(s, key, GroupBy(s, key)[g].key);
  }

  /** A group's items are elements of the input. */
  lemma GroupItemsFromInput<T, K>(s: seq<T>, key: T -> K, g: nat)
    requires g < |GroupBy(s, key)|
    ensures forall j :: 0 <= j < |GroupBy(s, key)[g].items| ==> GroupBy(s, key)[g].items[j] in s
  {
    var firsts := DistinctBy(s, key);
    WithKeyIndexed(s, key, key(firsts[g]));
  }

  lemma {:induction false} WithKeyIndexed<T, K>(s: seq<T>, key: T -> K, k: K)
    ensures forall j :: 0 <= j < |WithKey(s, key, k)| ==> WithKey(s, key, k)[j] in s
  {
    if s != [] {
      WithKeyIndexed(s[1..], key, k);
      var r := WithKey(s, key, k);
      var head := if key(s[0]) == k then [s[0]] else [];
      assert r == head + WithKey(s[1..], key, k);
      forall j | 0 <= j < |r| ensures r[j] in s {
        if j < |head| {
          assert r[j] == s[0];
        } else {
          assert r[j] == WithKey(s[1..], key, k)[j - |head|];
          assert r[j] in s[1..];
        }
      }
    }
  }
}
