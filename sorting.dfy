/**
 * Stable sorting by a caller-supplied ordering, as done by Kotlin's `sortedBy`,
 * `sortedWith` and `sorted`, which are all stable.
 */
module Sorting {
  import Search

  /** `le` is a total preorder: any two elements compare, and comparison is transitive. */
  ghost predicate TotalPreorder<T(!new)>(le: (T, T) -> bool)
  {
    && (forall a, b :: le(a, b) || le(b, a))
    && (forall a, b, c :: le(a, b) && le(b, c) ==> le(a, c))
  }

  predicate SortedBy<T>(s: seq<T>, le: (T, T) -> bool)
  {
    forall i, j :: 0 <= i < j < |s| ==> le(s[i], s[j])
  }

  /** Only equal elements compare both ways. */
  ghost predicate Antisymmetric<T(!new)>(le: (T, T) -> bool)
  {
    forall a, b :: le(a, b) && le(b, a) ==> a == b
  }

  /**
   * Under an antisymmetric ordering there is only one sorted arrangement of
   * a collection of elements.
   */
  lemma {:induction false} SortedUnique<T(!new)>(a: seq<T>, b: seq<T>, le: (T, T) -> bool)
    requires Antisymmetric(le)
    requires SortedBy(a, le) && SortedBy(b, le)
    requires multiset(a) == multiset(b)
    ensures a == b
    decreases |a|
  {
    if a != [] {
      SortedHeadsAgree(a, b, le);
      MultisetTail(a);
      MultisetTail(b);
      SortedUnique(a[1..], b[1..], le);
      assert a == [a[0]] + a[1..] && b == [b[0]] + b[1..];
    }
  }

  lemma {:induction false} SortedHeadsAgree<T(!new)>(a: seq<T>, b: seq<T>, le: (T, T) -> bool)
    requires Antisymmetric(le)
    requires SortedBy(a, le) && SortedBy(b, le)
    requires multiset(a) == multiset(b) && a != []
    ensures b != [] && a[0] == b[0]
  {
    assert a[0] in multiset(b);
    var j :| 0 <= j < |b| && b[j] == a[0];
    assert b[0] in multiset(a);
    var k :| 0 <= k < |a| && a[k] == b[0];
    if j > 0 && k > 0 {
      assert le(b[0], a[0]) && le(a[0], b[0]);
    }
  }

  lemma {:induction false} MultisetTail<T>(s: seq<T>)
    requires s != []
    ensures multiset(s[1..]) == multiset(s) - multiset{s[0]}
  {
    assert s == [s[0]] + s[1..];
  }

  /** Inserts `x` in front of the first element it does not exceed. */
  function Insert<T>(x: T, s: seq<T>, le: (T, T) -> bool): (r: seq<T>)
    ensures |r| == |s| + 1
    ensures multiset(r) == multiset(s) + multiset{x}
  {
    if s == [] || le(x, s[0]) then [x] + s
    else
      assert s == [s[0]] + s[1..];
      [s[0]] + Insert(x, s[1..], le)
  }

  /**
   * Insertion sort. An element is inserted in front of the equal elements
   * that came after it in the input, so equal elements keep their input order.
   */
  function Sort<T>(s: seq<T>, le: (T, T) -> bool): (r: seq<T>)
    ensures |r| == |s|
    ensures multiset(r) == multiset(s)
  {
    if s == [] then []
    else
      assert s == [s[0]] + s[1..];
      Insert(s[0], Sort(s[1..], le), le)
  }

  lemma {:induction false} InsertKeepsSorted<T(!new)>(x: T, s: seq<T>, le: (T, T) -> bool)
    requires TotalPreorder(le)
    requires SortedBy(s, le)
    ensures SortedBy(Insert(x, s, le), le)
  {
    if s == [] || le(x, s[0]) {
    } else {
      InsertKeepsSorted(x, s[1..], le);
      var rest := Insert(x, s[1..], le);
      assert le(s[0], x);
      forall k | 0 <= k < |rest|
        ensures le(s[0], rest[k])
      {
        assert rest[k] in multiset(rest);
        assert rest[k] == x || rest[k] in multiset(s[1..]);
        if rest[k] != x {
          assert rest[k] in s[1..];
          var m :| 0 <= m < |s[1..]| && s[1..][m] == rest[k];
          assert s[1..][m] == s[m + 1];
        }
      }
    }
  }

  /** The result of `Sort` is ordered by `le`. */
  lemma {:induction false} SortIsSorted<T(!new)>(s: seq<T>, le: (T, T) -> bool)
    requires TotalPreorder(le)
    ensures SortedBy(Sort(s, le), le)
  {
    if s != [] {
      SortIsSorted(s[1..], le);
      InsertKeepsSorted(s[0], Sort(s[1..], le), le);
    }
  }

  /** The ordering of integer-keyed elements by their key. */
  function ByKey<T>(key: T -> int): (T, T) -> bool
  {
    (a, b) => key(a) <= key(b)
  }

  lemma {:induction false} ByKeyIsTotalPreorder<T(!new)>(key: T -> int)
    ensures TotalPreorder(ByKey(key))
  {
  }

  /**
   * The same two facts for a key ordering, for elements of any type (the
   * general lemmas quantify over all values of the element type, which
   * rules out types holding references).
   */
  lemma {:induction false} InsertByKeyKeepsSorted<T>(x: T, s: seq<T>, key: T -> int)
    requires SortedBy(s, ByKey(key))
    ensures SortedBy(Insert(x, s, ByKey(key)), ByKey(key))
  {
    var le := ByKey(key);
    if s != [] && !le(x, s[0]) {
      InsertByKeyKeepsSorted(x, s[1..], key);
      var rest := Insert(x, s[1..], le);
      forall k | 0 <= k < |rest|
        ensures key(s[0]) <= key(rest[k])
      {
        assert rest[k] in multiset(rest);
        assert rest[k] == x || rest[k] in multiset(s[1..]);
        if rest[k] != x {
          assert rest[k] in s[1..];
          var m :| 0 <= m < |s[1..]| && s[1..][m] == rest[k];
          assert s[1..][m] == s[m + 1];
          assert le(s[0], s[m + 1]);
        }
      }
    }
  }

  lemma {:induction false} SortByKeyIsSorted<T>(s: seq<T>, key: T -> int)
    ensures SortedBy(Sort(s, ByKey(key)), ByKey(key))
  {
    if s != [] {
      SortByKeyIsSorted(s[1..], key);
      InsertByKeyKeepsSorted(s[0], Sort(s[1..], ByKey(key)), key);
    }
  }

  /** The list of images of the elements under `f`. */
  function Map<T, U>(s: seq<T>, f: T -> U): (r: seq<U>)
    ensures |r| == |s| && forall i | 0 <= i < |s| :: r[i] == f(s[i])
  {
    seq(|s|, i requires 0 <= i < |s| => f(s[i]))
  }

  lemma {:induction false} InsertMap<T, U>(x: T, s: seq<T>, le: (T, T) -> bool, f: T -> U)
    ensures multiset(Map(Insert(x, s, le), f)) == multiset{f(x)} + multiset(Map(s, f))
  {
    if s == [] || le(x, s[0]) {
      assert Map(Insert(x, s, le), f) == [f(x)] + Map(s, f);
    } else {
      InsertMap(x, s[1..], le, f);
      assert Map(Insert(x, s, le), f) == [f(s[0])] + Map(Insert(x, s[1..], le), f);
      assert Map(s, f) == [f(s[0])] + Map(s[1..], f);
    }
  }

  /** Sorting keeps any projection of the elements, counted with multiplicity. */
  lemma {:induction false} SortMap<T, U>(s: seq<T>, le: (T, T) -> bool, f: T -> U)
    ensures multiset(Map(Sort(s, le), f)) == multiset(Map(s, f))
  {
    if s != [] {
      SortMap(s[1..], le, f);
      InsertMap(s[0], Sort(s[1..], le), le, f);
      assert Map(s, f) == [f(s[0])] + Map(s[1..], f);
    }
  }
  /** The elements whose key is `c`. */
  function WithKey<T>(key: T -> int, c: int): T -> bool
  {
    x => key(x) == c
  }

  /**
   * Inserting by key puts `x` after every element of smaller key and in
   * front of the others, so among the elements of one key it comes first
   * and the others keep their order.
   */
  lemma {:induction false} InsertByKeyStable<T(!new)>(x: T, s: seq<T>, key: T -> int, c: int)
    ensures Search.Filter(Insert(x, s, ByKey(key)), WithKey(key, c))
            == (if key(x) == c then [x] else []) + Search.Filter(s, WithKey(key, c))
  {
    var le, p := ByKey(key), WithKey(key, c);
    if s == [] || le(x, s[0]) {
      Search.FilterCons(x, s, p);
    } else {
      var rest := Insert(x, s[1..], le);
      InsertByKeyStable(x, s[1..], key, c);
      Search.FilterCons(s[0], rest, p);
      assert s == [s[0]] + s[1..];
      Search.FilterCons(s[0], s[1..], p);
      // `s[0]` has a smaller key than `x`, so at most one of them has key `c`
      if key(x) == c {
        assert !p(s[0]);
      } else {
        assert Search.Filter(rest, p) == Search.Filter(s[1..], p);
      }
    }
  }

  /**
   * `Sort` by a key is stable: the elements of any one key come out in the
   * order they went in.
   */
  lemma {:induction false} SortByKeyStable<T(!new)>(s: seq<T>, key: T -> int, c: int)
    ensures Search.Filter(Sort(s, ByKey(key)), WithKey(key, c)) == Search.Filter(s, WithKey(key, c))
  {
    if s != [] {
      SortByKeyStable(s[1..], key, c);
      InsertByKeyStable(s[0], Sort(s[1..], ByKey(key)), key, c);
    }
  }
}

