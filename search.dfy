/**
 * Searches over lists with the exact tie-breaking of the Kotlin standard
 * library: `indexOfFirst`, `filter { .. }.maxByOrNull { .. }` and
 * `minByOrNull` keep the FIRST extremal element, while `associateBy` and
 * `toMap` keep the LAST element for a repeated key.
 */
module Search {
  import opened Wrappers

  /** Index of the first element satisfying `p` (`indexOfFirst`, with -1 as None). */
  function FirstIndex<T>(s: seq<T>, p: T -> bool): (r: Option<nat>)
    ensures r.None? <==> (forall i | 0 <= i < |s| :: !p(s[i]))
    ensures r.Some? ==> r.value < |s| && p(s[r.value])
    ensures r.Some? ==> forall i | 0 <= i < r.value :: !p(s[i])
  {
    if s == [] then None
    else if p(s[0]) then Some(0)
    else match FirstIndex(s[1..], p)
      case None => None
      case Some(i) => Some(i + 1)
  }

  /** Appending an element changes the first match only when there was none. */
  lemma {:induction false} FirstIndexAppend<T>(s: seq<T>, x: T, p: T -> bool)
    ensures FirstIndex(s + [x], p) == if FirstIndex(s, p).Some? then FirstIndex(s, p) else if p(x) then Some(|s|) else None
  {
    if s != [] {
      assert (s + [x])[1..] == s[1..] + [x];
      FirstIndexAppend(s[1..], x, p);
    }
  }

  /** Index of the last element satisfying `p` (the entry `associateBy` keeps). */
  function LastIndex<T>(s: seq<T>, p: T -> bool): (r: Option<nat>)
    ensures r.None? <==> (forall i | 0 <= i < |s| :: !p(s[i]))
    ensures r.Some? ==> r.value < |s| && p(s[r.value])
    ensures r.Some? ==> forall i | r.value < i < |s| :: !p(s[i])
  {
    if s == [] then None
    else if p(s[|s| - 1]) then Some(|s| - 1)
    else LastIndex(s[..|s| - 1], p)
  }

  /**
   * `s.filter(ok).maxByOrNull(key)`: among the elements satisfying `ok`, the
   * first one with the largest key.
   */
  function MaxByIndex<T>(s: seq<T>, ok: T -> bool, key: T -> int): (r: Option<nat>)
    ensures r.None? <==> (forall i | 0 <= i < |s| :: !ok(s[i]))
    ensures r.Some? ==> r.value < |s| && ok(s[r.value])
    ensures r.Some? ==> forall i | 0 <= i < |s| && ok(s[i]) :: key(s[i]) <= key(s[r.value])
    ensures r.Some? ==> forall i | 0 <= i < r.value && ok(s[i]) :: key(s[i]) < key(s[r.value])
  {
    if s == [] then None
    else
      var last := |s| - 1;
      var prev := MaxByIndex(s[..last], ok, key);
      assert forall i | 0 <= i < last :: s[..last][i] == s[i];
      if ok(s[last]) && (prev.None? || key(s[prev.value]) < key(s[last])) then Some(last)
      else prev
  }

  /**
   * `s.filter(ok).minByOrNull(key)`: among the elements satisfying `ok`, the
   * first one with the smallest key.
   */
  function MinByIndex<T>(s: seq<T>, ok: T -> bool, key: T -> int): (r: Option<nat>)
    ensures r.None? <==> (forall i | 0 <= i < |s| :: !ok(s[i]))
    ensures r.Some? ==> r.value < |s| && ok(s[r.value])
    ensures r.Some? ==> forall i | 0 <= i < |s| && ok(s[i]) :: key(s[r.value]) <= key(s[i])
    ensures r.Some? ==> forall i | 0 <= i < r.value && ok(s[i]) :: key(s[r.value]) < key(s[i])
  {
    if s == [] then None
    else
      var last := |s| - 1;
      var prev := MinByIndex(s[..last], ok, key);
      assert forall i | 0 <= i < last :: s[..last][i] == s[i];
      if ok(s[last]) && (prev.None? || key(s[last]) < key(s[prev.value])) then Some(last)
      else prev
  }

  /** `filter`: the elements satisfying `p`, in their original order. */
  function Filter<T(==,!new)>(s: seq<T>, p: T -> bool): (r: seq<T>)
    ensures forall x :: x in r <==> x in s && p(x)
    ensures forall i | 0 <= i < |r| :: p(r[i])
    ensures |r| <= |s|
  {
    if s == [] then []
    else (if p(s[0]) then [s[0]] else []) + Filter(s[1..], p)
  }

  /** Filtering by a predicate and by its negation splits the list: nothing is lost or duplicated. */
  lemma {:induction false} FilterSplit<T(!new)>(s: seq<T>, p: T -> bool, q: T -> bool)
    requires forall x :: q(x) == !p(x)
    ensures multiset(Filter(s, p)) + multiset(Filter(s, q)) == multiset(s)
  {
    if s != [] {
      var h, t := s[0], s[1..];
      FilterSplit(t, p, q);
      assert q(h) == !p(h);
      assert s == [h] + t;
      SplitStep(h, t, Filter(s, p), Filter(s, q), Filter(t, p), Filter(t, q));
    }
  }

  lemma {:induction false} SplitStep<T>(h: T, t: seq<T>, fp: seq<T>, fq: seq<T>, rp: seq<T>, rq: seq<T>)
    requires multiset(rp) + multiset(rq) == multiset(t)
    requires (fp == [h] + rp && fq == rq) || (fp == rp && fq == [h] + rq)
    ensures multiset(fp) + multiset(fq) == multiset([h] + t)
  {
  }

  /** Filtering works element by element, so it keeps the original order. */
  lemma {:induction false} FilterAppend<T(!new)>(a: seq<T>, b: seq<T>, p: T -> bool)
    ensures Filter(a + b, p) == Filter(a, p) + Filter(b, p)
    ensures forall x :: Filter([x], p) == if p(x) then [x] else []
  {
    FilterConcat(a, b, p);
    FilterSingletons(p);
  }

  lemma {:induction false} FilterConcat<T(!new)>(a: seq<T>, b: seq<T>, p: T -> bool)
    ensures Filter(a + b, p) == Filter(a, p) + Filter(b, p)
  {
    if a != [] {
      var head := if p(a[0]) then [a[0]] else [];
      assert (a + b)[0] == a[0] && (a + b)[1..] == a[1..] + b;
      assert Filter(a + b, p) == head + Filter(a[1..] + b, p);
      FilterConcat(a[1..], b, p);
      Assoc(head, Filter(a[1..], p), Filter(b, p));
    } else {
      assert a + b == b;
    }
  }

  lemma {:induction false} Assoc<T>(a: seq<T>, b: seq<T>, c: seq<T>)
    ensures a + (b + c) == (a + b) + c
  {
  }

  /** Appending to a non-empty list keeps its head and appends to its tail. */
  lemma {:induction false} TailOfAppend<T>(xs: seq<T>, ys: seq<T>)
    requires xs != []
    ensures (xs + ys)[0] == xs[0] && (xs + ys)[1..] == xs[1..] + ys
  {
  }

  /** Filtering a list with a head decides the head, then filters the rest. */
  lemma {:induction false} FilterCons<T(!new)>(h: T, t: seq<T>, p: T -> bool)
    ensures Filter([h] + t, p) == (if p(h) then [h] else []) + Filter(t, p)
  {
    TailOfAppend([h], t);
  }

  lemma {:induction false} FilterSingletons<T(!new)>(p: T -> bool)
    ensures forall x :: Filter([x], p) == if p(x) then [x] else []
  {
    forall x ensures Filter([x], p) == if p(x) then [x] else [] {
      assert [x][1..] == [];
    }
  }

  /** No element occurs twice. */
  predicate Distinct<T(==)>(s: seq<T>)
  {
    forall i, j | 0 <= i < j < |s| :: s[i] != s[j]
  }

  lemma {:induction false} DistinctCountsOnce<T>(s: seq<T>, x: T)
    requires Distinct(s)
    ensures multiset(s)[x] <= 1
  {
    if s != [] {
      assert s == [s[0]] + s[1..];
      DistinctCountsOnce(s[1..], x);
      if s[0] == x {
        assert x !in s[1..];
      }
    }
  }

  /** A new element in front of a list without repetitions. */
  lemma {:induction false} DistinctCons<T>(x: T, s: seq<T>)
    requires Distinct(s) && x !in s
    ensures Distinct([x] + s)
  {
    var c := [x] + s;
    forall i, j | 0 <= i < j < |c| ensures c[i] != c[j] {
      assert c[j] == s[j - 1];
      if i > 0 {
        assert c[i] == s[i - 1];
      }
    }
  }

  /** A rearrangement of a list without repetitions has no repetitions either. */
  lemma {:induction false} DistinctPermutation<T>(a: seq<T>, b: seq<T>)
    requires multiset(a) == multiset(b) && Distinct(b)
    ensures Distinct(a)
  {
    forall i, j | 0 <= i < j < |a|
      ensures a[i] != a[j]
    {
      if a[i] == a[j] {
        assert a == a[..j] + [a[j]] + a[j + 1..];
        assert a[i] in a[..j];
        assert multiset(a)[a[j]] >= 2;
        DistinctCountsOnce(b, a[j]);
      }
    }
  }
}
