/**
 * Kotlin's `mutableMapOf()` is a `LinkedHashMap`: besides the key/value
 * mapping it remembers the order in which keys were first inserted, and
 * iterating its `entries` follows that order. Here it is a list of entries
 * with distinct keys; putting an existing key replaces its value in place,
 * putting a new key appends it, and removing a key keeps the others' order.
 */
module LinkedMap {
  import opened Wrappers
  import Search
  import Sorting

  type Entries<K, V> = seq<(K, V)>

  function Keys<K, V>(e: Entries<K, V>): (r: seq<K>)
    ensures |r| == |e| && forall i | 0 <= i < |e| :: r[i] == e[i].0
  {
    if e == [] then [] else [e[0].0] + Keys(e[1..])
  }

  /** No key occurs twice. */
  predicate DistinctKeys<K(==), V>(e: Entries<K, V>)
  {
    Search.Distinct(Keys(e))
  }

  /** `map[k]`: the value stored under `k`, if any. */
  function Get<K(==), V>(e: Entries<K, V>, k: K): (r: Option<V>)
    ensures r.None? <==> k !in Keys(e)
    ensures r.Some? ==> (k, r.value) in e
  {
    if e == [] then None
    else if e[0].0 == k then Some(e[0].1)
    else Get(e[1..], k)
  }

  /** In a map with distinct keys, the value stored with a key is the one `Get` finds. */
  lemma {:induction false} GetEntry<K, V>(e: Entries<K, V>, i: nat)
    requires DistinctKeys(e) && i < |e|
    ensures Get(e, e[i].0) == Some(e[i].1)
  {
    if i > 0 {
      assert e[i] == e[1..][i - 1];
      assert Keys(e)[0] != Keys(e)[i];
      assert Keys(e[1..]) == Keys(e)[1..];
      GetEntry(e[1..], i - 1);
    }
  }

  /** The same, for an entry known by membership. */
  lemma {:induction false} GetMember<K, V>(e: Entries<K, V>, entry: (K, V))
    requires DistinctKeys(e) && entry in e
    ensures Get(e, entry.0) == Some(entry.1)
  {
    var i :| 0 <= i < |e| && e[i] == entry;
    GetEntry(e, i);
  }

  lemma {:induction false} InKeys<K, V>(e: Entries<K, V>, entry: (K, V))
    requires entry in e
    ensures entry.0 in Keys(e)
  {
    var i :| 0 <= i < |e| && e[i] == entry;
    assert Keys(e)[i] == entry.0;
  }

  /** `map[k] = v`: replaces the value of a known key in place, or appends a new entry. */
  function Put<K(==), V>(e: Entries<K, V>, k: K, v: V): (r: Entries<K, V>)
    ensures Get(r, k) == Some(v)
    ensures k in Keys(e) ==> Keys(r) == Keys(e)
    ensures k !in Keys(e) ==> Keys(r) == Keys(e) + [k]
  {
    if e == [] then [(k, v)]
    else if e[0].0 == k then
      PutHead(e, v);
      [(k, v)] + e[1..]
    else
      var rest := Put(e[1..], k, v);
      PutStep(e, k, v, rest);
      [e[0]] + rest
  }

  /** What `Put` ensures, when the key is that of the first entry. */
  lemma {:induction false} PutHead<K, V>(e: Entries<K, V>, v: V)
    requires e != []
    ensures var k, r := e[0].0, [(e[0].0, v)] + e[1..];
      Get(r, k) == Some(v) && k in Keys(e) && Keys(r) == Keys(e)
  {
    KeysCons((e[0].0, v), e[1..]);
    KeysUncons(e);
  }

  /** What `Put` ensures, from what it ensures about the tail, when the key is not the first. */
  lemma {:induction false} PutStep<K, V>(e: Entries<K, V>, k: K, v: V, rest: Entries<K, V>)
    requires e != [] && e[0].0 != k && Get(rest, k) == Some(v)
    requires k in Keys(e[1..]) ==> Keys(rest) == Keys(e[1..])
    requires k !in Keys(e[1..]) ==> Keys(rest) == Keys(e[1..]) + [k]
    ensures var r := [e[0]] + rest;
      && Get(r, k) == Some(v)
      && (k in Keys(e) ==> Keys(r) == Keys(e))
      && (k !in Keys(e) ==> Keys(r) == Keys(e) + [k])
  {
    GetCons(e[0], rest, k);
    KeysCons(e[0], rest);
    KeysUncons(e);
    if k !in Keys(e[1..]) {
      ConsSnoc(e[0].0, Keys(e[1..]), k);
    }
  }

  lemma {:induction false} GetCons<K, V>(entry: (K, V), e: Entries<K, V>, k: K)
    requires entry.0 != k
    ensures Get([entry] + e, k) == Get(e, k)
  {
    assert ([entry] + e)[1..] == e;
  }

  lemma {:induction false} ConsSnoc<T>(x: T, s: seq<T>, y: T)
    ensures [x] + (s + [y]) == ([x] + s) + [y]
  {
  }

  lemma {:induction false} KeysUncons<K, V>(e: Entries<K, V>)
    requires e != []
    ensures Keys(e) == [e[0].0] + Keys(e[1..])
  {
  }

  lemma {:induction false} PutKeepsDistinct<K, V>(e: Entries<K, V>, k: K, v: V)
    requires DistinctKeys(e)
    ensures DistinctKeys(Put(e, k, v))
  {
    var ks := Keys(e);
    if k !in ks {
      var rs := Keys(Put(e, k, v));
      assert rs == ks + [k];
      forall i, j | 0 <= i < j < |rs| ensures rs[i] != rs[j] {
        assert rs[i] == ks[i];
        if j < |ks| {
          assert rs[j] == ks[j];
        }
      }
    }
  }

  /**
   * Putting the key of the first entry not yet visited rewrites that entry
   * and leaves the entries before and after it alone: one turn of a
   * `forEach` that writes back each entry it visits.
   */
  lemma {:induction false} PutInPlace<K, V>(done: Entries<K, V>, rest: Entries<K, V>, v: V)
    requires rest != [] && DistinctKeys(done + rest)
    ensures (done + rest)[|done|] == rest[0]
    ensures Put(done + rest, rest[0].0, v) == done + [(rest[0].0, v)] + rest[1..]
  {
    var e := done + rest;
    assert e[|done|] == rest[0];
    PutAt(e, |done|, v);
    UpdateAtBoundary(done, rest, (rest[0].0, v));
  }

  lemma {:induction false} UpdateAtBoundary<T>(done: seq<T>, rest: seq<T>, x: T)
    requires rest != []
    ensures (done + rest)[|done| := x] == done + [x] + rest[1..]
  {
  }

  /** Every entry after a `Put` is the new one or was there before. */
  lemma {:induction false} PutMember<K, V>(e: Entries<K, V>, k: K, v: V, entry: (K, V))
    requires entry in Put(e, k, v)
    ensures entry == (k, v) || entry in e
  {
    if e != [] && e[0].0 != k && entry != e[0] {
      assert entry in Put(e, k, v)[1..];
      assert Put(e, k, v)[1..] == Put(e[1..], k, v);
      PutMember(e[1..], k, v, entry);
    }
  }

  /** Putting a key that is already present rewrites its entry where it stands. */
  lemma {:induction false} PutAt<K, V>(e: Entries<K, V>, i: nat, v: V)
    requires DistinctKeys(e) && i < |e|
    ensures Put(e, e[i].0, v) == e[i := (e[i].0, v)]
  {
    var x := (e[i].0, v);
    if i == 0 {
      assert e[0 := x] == [x] + e[1..];
    } else {
      DistinctTail(e);
      assert Keys(e)[0] != Keys(e)[i];
      assert e[1..][i - 1] == e[i];
      PutAt(e[1..], i - 1, v);
      UpdateCons(e, i, x);
    }
  }

  lemma {:induction false} UpdateCons<T>(s: seq<T>, i: nat, x: T)
    requires 0 < i < |s|
    ensures s[i := x] == [s[0]] + s[1..][i - 1 := x]
  {
  }

  lemma {:induction false} GetPut<K, V>(e: Entries<K, V>, k: K, v: V, k': K)
    requires k' != k
    ensures Get(Put(e, k, v), k') == Get(e, k')
  {
    if e != [] && e[0].0 != k {
      var r := Put(e, k, v);
      assert r[1..] == Put(e[1..], k, v);
      GetPut(e[1..], k, v, k');
    }
  }

  /** `map.remove(k)`: drops the entry of `k`, keeping the others in order. */
  function Remove<K(==), V>(e: Entries<K, V>, k: K): (r: Entries<K, V>)
    ensures k !in Keys(r)
    ensures forall i | 0 <= i < |r| :: r[i] in e && r[i].0 != k
    ensures forall i | 0 <= i < |e| && e[i].0 != k :: e[i] in r
    ensures |r| <= |e|
    ensures DistinctKeys(e) ==> DistinctKeys(r)
  {
    if e == [] then []
    else
      var rest := Remove(e[1..], k);
      if e[0].0 == k then
        RemoveSkipStep(e, k, rest);
        rest
      else
        RemoveKeepStep(e, k, rest);
        RemoveKeepDistinct(e, k, rest);
        [e[0]] + rest
  }

  /** The entries whose key is not `k`. */
  function KeyIsNot<K(==), V>(k: K): ((K, V)) -> bool
  {
    (entry: (K, V)) => entry.0 != k
  }

  /** `Remove` keeps exactly the other entries, in the order they were in. */
  lemma {:induction false} RemoveKeepsOrder<K(!new), V(!new)>(e: Entries<K, V>, k: K)
    ensures Remove(e, k) == Search.Filter(e, KeyIsNot<K, V>(k))
  {
    if e != [] {
      RemoveKeepsOrder(e[1..], k);
      assert e == [e[0]] + e[1..];
      Search.FilterCons(e[0], e[1..], KeyIsNot<K, V>(k));
    }
  }

  lemma {:induction false} RemoveSkipStep<K, V>(e: Entries<K, V>, k: K, rest: Entries<K, V>)
    requires e != [] && e[0].0 == k
    requires forall i | 0 <= i < |rest| :: rest[i] in e[1..] && rest[i].0 != k
    requires forall i | 0 <= i < |e| - 1 && e[1..][i].0 != k :: e[1..][i] in rest
    requires DistinctKeys(e[1..]) ==> DistinctKeys(rest)
    ensures forall i | 0 <= i < |rest| :: rest[i] in e
    ensures forall i | 0 <= i < |e| && e[i].0 != k :: e[i] in rest
    ensures DistinctKeys(e) ==> DistinctKeys(rest)
  {
    assert forall i | 1 <= i < |e| :: e[i] == e[1..][i - 1];
    DistinctTail(e);
  }

  lemma {:induction false} RemoveKeepStep<K, V>(e: Entries<K, V>, k: K, rest: Entries<K, V>)
    requires e != [] && e[0].0 != k
    requires k !in Keys(rest)
    requires forall i | 0 <= i < |rest| :: rest[i] in e[1..] && rest[i].0 != k
    requires forall i | 0 <= i < |e| - 1 && e[1..][i].0 != k :: e[1..][i] in rest
    ensures var r := [e[0]] + rest;
      k !in Keys(r) &&
      (forall i | 0 <= i < |r| :: r[i] in e && r[i].0 != k) &&
      (forall i | 0 <= i < |e| && e[i].0 != k :: e[i] in r)
  {
    var r := [e[0]] + rest;
    assert Keys(r) == [e[0].0] + Keys(rest);
    assert forall i | 1 <= i < |r| :: r[i] == rest[i - 1];
    assert forall i | 1 <= i < |e| :: e[i] == e[1..][i - 1];
  }

  lemma {:induction false} RemoveKeepDistinct<K, V>(e: Entries<K, V>, k: K, rest: Entries<K, V>)
    requires e != [] && e[0].0 != k
    requires forall i | 0 <= i < |rest| :: rest[i] in e[1..]
    requires DistinctKeys(e[1..]) ==> DistinctKeys(rest)
    ensures DistinctKeys(e) ==> DistinctKeys([e[0]] + rest)
  {
    if DistinctKeys(e) {
      DistinctTail(e);
      var r := [e[0]] + rest;
      assert Keys(r) == [e[0].0] + Keys(rest);
      forall i | 0 <= i < |rest|
        ensures Keys(rest)[i] != e[0].0
      {
        var j :| 0 <= j < |e| - 1 && e[1..][j] == rest[i];
        assert Keys(e)[j + 1] == rest[i].0;
      }
    }
  }

  /** The tail of a map with distinct keys has distinct keys and lacks the first key. */
  lemma {:induction false} DistinctTail<K, V>(e: Entries<K, V>)
    requires e != []
    ensures DistinctKeys(e) ==> DistinctKeys(e[1..]) && e[0].0 !in Keys(e[1..])
  {
    assert Keys(e[1..]) == Keys(e)[1..];
  }

  lemma {:induction false} GetRemove<K, V>(e: Entries<K, V>, k: K, k': K)
    requires k' != k
    ensures Get(Remove(e, k), k') == Get(e, k')
  {
    if e != [] {
      GetRemove(e[1..], k, k');
      if e[0].0 != k {
        assert Remove(e, k)[1..] == Remove(e[1..], k);
      }
    }
  }

  /** The entries as a plain map: what the key/value view of the map holds. */
  function ToMap<K(==), V>(e: Entries<K, V>): (m: map<K, V>)
    ensures forall x | x in Keys(e) :: x in m
    ensures forall x | x in m :: Get(e, x) == Some(m[x])
  {
    if e == [] then map[]
    else
      assert Keys(e) == [e[0].0] + Keys(e[1..]);
      ToMap(e[1..])[e[0].0 := e[0].1]
  }

  lemma {:induction false} SameMap<K, V>(m: map<K, V>, m': map<K, V>)
    requires forall x :: x in m <==> x in m'
    requires forall x | x in m :: m[x] == m'[x]
    ensures m == m'
  {
  }

  /** The ordered entries agree with an ordinary map under `Put`... */
  lemma {:induction false} ToMapPut<K, V>(e: Entries<K, V>, k: K, v: V)
    ensures ToMap(Put(e, k, v)) == ToMap(e)[k := v]
  {
    var m, m' := ToMap(e)[k := v], ToMap(Put(e, k, v));
    forall x
      ensures x in m' <==> x in m
      ensures x in m ==> m'[x] == m[x]
    {
      if x != k {
        GetPut(e, k, v, x);
      }
    }
    SameMap(m', m);
  }

  /** ...and under `Remove`. */
  lemma {:induction false} ToMapRemove<K, V>(e: Entries<K, V>, k: K)
    ensures ToMap(Remove(e, k)) == ToMap(e) - {k}
  {
    var m, m' := ToMap(e) - {k}, ToMap(Remove(e, k));
    forall x
      ensures x in m' <==> x in m
      ensures x in m ==> m'[x] == m[x]
    {
      if x != k {
        GetRemove(e, k, x);
      }
    }
    SameMap(m', m);
  }

  /** Keeping only some entries keeps the keys distinct. */
  lemma {:induction false} FilterKeepsDistinct<K(!new), V(!new)>(e: Entries<K, V>, p: ((K, V)) -> bool)
    requires DistinctKeys(e)
    ensures DistinctKeys(Search.Filter(e, p))
  {
    if e != [] {
      var rest := Search.Filter(e[1..], p);
      assert Keys(e[1..]) == Keys(e)[1..];
      FilterKeepsDistinct(e[1..], p);
      if p(e[0]) {
        var r := Search.Filter(e, p);
        assert r == [e[0]] + rest;
        forall i | 0 <= i < |rest| ensures Keys(rest)[i] != e[0].0 {
          HeadKeyFresh(e, rest[i]);
        }
        assert e[0].0 !in Keys(rest);
        ConsKeepsDistinct(e[0], rest);
      }
    }
  }

  /** An entry of the tail does not share the head's key. */
  lemma {:induction false} HeadKeyFresh<K, V>(e: Entries<K, V>, entry: (K, V))
    requires DistinctKeys(e) && e != [] && entry in e[1..]
    ensures entry.0 != e[0].0
  {
    var j :| 0 <= j < |e[1..]| && e[1..][j] == entry;
    assert Keys(e)[j + 1] == entry.0 && Keys(e)[0] == e[0].0;
  }

  lemma {:induction false} ConsKeepsDistinct<K, V>(entry: (K, V), e: Entries<K, V>)
    requires DistinctKeys(e) && entry.0 !in Keys(e)
    ensures DistinctKeys([entry] + e)
  {
    KeysCons(entry, e);
    Search.DistinctCons(entry.0, Keys(e));
  }

  lemma {:induction false} KeysCons<K, V>(entry: (K, V), e: Entries<K, V>)
    ensures Keys([entry] + e) == [entry.0] + Keys(e)
  {
    assert ([entry] + e)[1..] == e;
  }

  function Key<K, V>(entry: (K, V)): K { entry.0 }

  /** Reordering the entries keeps the keys distinct. */
  lemma {:induction false} SortKeepsDistinct<K, V>(e: Entries<K, V>, le: ((K, V), (K, V)) -> bool)
    requires DistinctKeys(e)
    ensures DistinctKeys(Sorting.Sort(e, le))
  {
    var s := Sorting.Sort(e, le);
    Sorting.SortMap(e, le, Key);
    KeysAreMap(s);
    KeysAreMap(e);
    Search.DistinctPermutation(Keys(s), Keys(e));
  }

  lemma {:induction false} KeysAreMap<K, V>(e: Entries<K, V>)
    ensures Keys(e) == Sorting.Map(e, Key)
  {
  }
}
