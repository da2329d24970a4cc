/**
 * The stateful sequencer `AmanDmanSequence` of the client's model package. It
 * keeps a callsign -> scheduled time map, the latest arrival list and a
 * callsign -> "inside the active advisory horizon (AAH)" map. Arrivals that
 * enter the 30-minute AAH are given a landing time behind the last sequenced
 * aircraft; after every change the whole map is rebuilt so that consecutive
 * aircraft keep the wake spacing flown at 140 kt.
 *
 * Times are whole seconds. The trajectory's remaining time is whole seconds
 * too; comparing its floor with 30 min decides the same as the exact value.
 */
module AmanDmanSequenceModel {
  import opened Wrappers
  import opened Spacing
  import opened HorizonArrivals
  import Sorting
  import Search
  import LinkedMap

  /** An arrival is inside the AAH when it is less than 30 min from landing. */
  const AahHorizon: int := 30 * 60

  /**
   * `isInAAH`, which reads the first trajectory point with `!!`: `None`
   * stands for the exception an empty trajectory raises.
   */
  function IsInAah(a: Arrival): (r: Option<bool>)
    ensures r.None? <==> a.descentTrajectory == []
    ensures r.Some? ==> (r.value <==> a.descentTrajectory[0].remainingTime < AahHorizon)
  {
    if a.descentTrajectory == [] then None
    else Some(a.descentTrajectory[0].remainingTime < AahHorizon)
  }

  /** Index of the first arrival with that callsign (the `find` of `latestOccurrenceForCallsign`). */
  function FindCallsign(latest: seq<Arrival>, callsign: string): (r: Option<nat>)
    ensures r.None? <==> forall i | 0 <= i < |latest| :: latest[i].callsign != callsign
    ensures r.Some? ==> r.value < |latest| && latest[r.value].callsign == callsign
    ensures r.Some? ==> forall i | 0 <= i < r.value :: latest[i].callsign != callsign
  {
    if latest == [] then None
    else if latest[0].callsign == callsign then Some(0)
    else match FindCallsign(latest[1..], callsign)
      case None => None
      case Some(i) => Some(i + 1)
  }

  /** `latestOccurrenceForCallsign`: the first arrival of the latest list with that callsign. */
  function LatestOccurrence(latest: seq<Arrival>, callsign: string): (r: Option<Arrival>)
    ensures r.None? <==> forall i | 0 <= i < |latest| :: latest[i].callsign != callsign
    ensures r.Some? ==> r.value in latest && r.value.callsign == callsign
  {
    match FindCallsign(latest, callsign)
    case None => None
    case Some(i) => Some(latest[i])
  }

  /** The stored time of a callsign, as the sort of `updateSequence` reads it. */
  function Lookup(stored: LinkedMap.Entries<string, int>): string -> Option<int>
  {
    (callsign: string) => LinkedMap.Get(stored, callsign)
  }

  // ---------------------------------------------------------------------
  // The pass of `updateSequence` over the sorted arrivals

  /** Index of the last `Ok` occurrence produced so far: the `lastSequenced` of the loop. */
  function LastOk(result: seq<Arrival>): (r: Option<nat>)
    ensures r.None? <==> forall i | 0 <= i < |result| :: result[i].sequenceStatus != Ok
    ensures r.Some? ==> r.value < |result| && result[r.value].sequenceStatus == Ok
    ensures r.Some? ==> forall i | r.value < i < |result| :: result[i].sequenceStatus != Ok
  {
    Search.LastIndex(result, (a: Arrival) => a.sequenceStatus == Ok)
  }

  /** The time of the first `Ok` occurrence for `callsign` produced so far. */
  function FirstOkTime(result: seq<Arrival>, callsign: string): (r: Option<int>)
    ensures r.None? <==> forall i | 0 <= i < |result| :: !(result[i].callsign == callsign && result[i].sequenceStatus == Ok)
  {
    match Search.FirstIndex(result, (a: Arrival) => a.callsign == callsign && a.sequenceStatus == Ok)
    case None => None
    case Some(i) => Some(result[i].scheduledTime)
  }

  lemma {:induction false} FirstOkTimeAppend(result: seq<Arrival>, a: Arrival, callsign: string)
    ensures FirstOkTime(result + [a], callsign)
            == if FirstOkTime(result, callsign).Some? then FirstOkTime(result, callsign)
               else if a.callsign == callsign && a.sequenceStatus == Ok then Some(a.scheduledTime)
               else None
  {
    Search.FirstIndexAppend(result, a, (x: Arrival) => x.callsign == callsign && x.sequenceStatus == Ok);
  }

  /**
   * The time stored for a callsign while the pass runs: its time from before
   * the pass, or else the time given to its first `Ok` occurrence so far.
   */
  function StoredTime(before: LinkedMap.Entries<string, int>, result: seq<Arrival>, callsign: string): Option<int>
  {
    if LinkedMap.Get(before, callsign).Some? then LinkedMap.Get(before, callsign) else FirstOkTime(result, callsign)
  }

  /** The time an arrival entering the AAH gets, given the occurrences produced before it. */
  function EnteringTime(first: Arrival, result: seq<Arrival>, current: Arrival): (r: int)
    ensures r >= current.estimatedTime
    ensures LastOk(result).None? ==> r == Max(current.estimatedTime, first.estimatedTime)
    ensures LastOk(result).Some? ==>
              var leader := result[LastOk(result).value];
              r == CalculateFinalTime(current, leader.scheduledTime, leader)
              && r >= leader.scheduledTime + SpacingTime(leader, current)
  {
    match LastOk(result)
    case None => Max(current.estimatedTime, first.estimatedTime)
    case Some(l) => CalculateFinalTime(current, result[l].scheduledTime, result[l])
  }

  /** What the pass returns for `current`, given what it stored and produced before. */
  function Outcome(before: LinkedMap.Entries<string, int>, first: Arrival, result: seq<Arrival>, current: Arrival): (r: Arrival)
    requires current.descentTrajectory != []
    ensures r.callsign == current.callsign && r.estimatedTime == current.estimatedTime
    ensures r.wakeCategory == current.wakeCategory && r.descentTrajectory == current.descentTrajectory
    // already sequenced: OK at the stored time
    ensures StoredTime(before, result, current.callsign).Some? ==>
              r == current.(sequenceStatus := Ok, scheduledTime := StoredTime(before, result, current.callsign).value)
    // entering the AAH: OK, no earlier than its estimate and spaced behind the last sequenced aircraft
    ensures StoredTime(before, result, current.callsign).None? && IsInAah(current) == Some(true) ==>
              r == current.(sequenceStatus := Ok, scheduledTime := EnteringTime(first, result, current))
    // outside the AAH and not sequenced: awaiting, time untouched
    ensures StoredTime(before, result, current.callsign).None? && IsInAah(current) == Some(false) ==>
              r == current.(sequenceStatus := AwaitingForSequence)
  {
    match StoredTime(before, result, current.callsign)
    case Some(t) => current.(sequenceStatus := Ok, scheduledTime := t)
    case None =>
      if IsInAah(current).value then current.(sequenceStatus := Ok, scheduledTime := EnteringTime(first, result, current))
      else current.(sequenceStatus := AwaitingForSequence)
  }

  /** The AAH map after the pass produced `result`: set for every arrival that was not yet sequenced. */
  function AahAfter(aah: map<string, bool>, before: LinkedMap.Entries<string, int>, result: seq<Arrival>): map<string, bool>
  {
    if result == [] then aah
    else
      var prefix := result[..|result| - 1];
      var last := result[|result| - 1];
      var m := AahAfter(aah, before, prefix);
      if StoredTime(before, prefix, last.callsign).Some? then m
      else m[last.callsign := last.sequenceStatus == Ok]
  }

  // ---------------------------------------------------------------------
  // `rebuildSequence`

  /** A stored entry together with the latest occurrence of its callsign. */
  datatype RebuildEntry = RebuildEntry(callsign: string, scheduledTime: int, occurrence: Arrival)

  function CallsignOf(e: RebuildEntry): string { e.callsign }

  function TimeOf(e: RebuildEntry): int { e.scheduledTime }

  function Callsigns(order: seq<RebuildEntry>): (r: seq<string>)
    ensures |r| == |order| && forall i | 0 <= i < |order| :: r[i] == order[i].callsign
  {
    if order == [] then [] else [order[0].callsign] + Callsigns(order[1..])
  }

  /** No callsign is walked twice. */
  predicate DistinctCallsigns(order: seq<RebuildEntry>)
  {
    forall i, j | 0 <= i < j < |order| :: order[i].callsign != order[j].callsign
  }

  /** The `mapNotNull` of `rebuildSequence`: the stored entries whose callsign has a latest occurrence. */
  function Known(stored: LinkedMap.Entries<string, int>, latest: seq<Arrival>): (r: seq<RebuildEntry>)
    ensures forall e | e in r :: (e.callsign, e.scheduledTime) in stored && LatestOccurrence(latest, e.callsign) == Some(e.occurrence)
    ensures forall entry | entry in stored && LatestOccurrence(latest, entry.0).Some? ::
              RebuildEntry(entry.0, entry.1, LatestOccurrence(latest, entry.0).value) in r
  {
    if stored == [] then []
    else
      var rest := Known(stored[1..], latest);
      assert forall entry | entry in stored :: entry == stored[0] || entry in stored[1..];
      match LatestOccurrence(latest, stored[0].0)
      case None => rest
      case Some(o) => [RebuildEntry(stored[0].0, stored[0].1, o)] + rest
  }

  lemma {:induction false} KnownKeepsDistinct(stored: LinkedMap.Entries<string, int>, latest: seq<Arrival>)
    requires LinkedMap.DistinctKeys(stored)
    ensures Search.Distinct(Callsigns(Known(stored, latest)))
  {
    if stored != [] {
      var tail := stored[1..];
      LinkedMap.DistinctTail(stored);
      KnownKeepsDistinct(tail, latest);
      var rest := Known(tail, latest);
      if LatestOccurrence(latest, stored[0].0).Some? {
        KnownFresh(tail, latest, stored[0].0);
        CallsignsCons(RebuildEntry(stored[0].0, stored[0].1, LatestOccurrence(latest, stored[0].0).value), rest);
        Search.DistinctCons(stored[0].0, Callsigns(rest));
      }
    }
  }

  /** A callsign that is not a key is not walked. */
  lemma {:induction false} KnownFresh(stored: LinkedMap.Entries<string, int>, latest: seq<Arrival>, k: string)
    requires k !in LinkedMap.Keys(stored)
    ensures k !in Callsigns(Known(stored, latest))
  {
    var rest := Known(stored, latest);
    forall i | 0 <= i < |rest| ensures rest[i].callsign != k {
      assert rest[i] in rest;
      LinkedMap.InKeys(stored, (rest[i].callsign, rest[i].scheduledTime));
    }
  }

  lemma {:induction false} CallsignsCons(e: RebuildEntry, order: seq<RebuildEntry>)
    ensures Callsigns([e] + order) == [e.callsign] + Callsigns(order)
  {
    assert ([e] + order)[1..] == order;
  }

  /** The entries `rebuildSequence` walks: the known ones, stably sorted by stored time. */
  function RebuildOrder(stored: LinkedMap.Entries<string, int>, latest: seq<Arrival>): (r: seq<RebuildEntry>)
    ensures multiset(r) == multiset(Known(stored, latest))
    ensures Sorting.SortedBy(r, Sorting.ByKey(TimeOf))
  {
    Sorting.ByKeyIsTotalPreorder(TimeOf);
    Sorting.SortIsSorted(Known(stored, latest), Sorting.ByKey(TimeOf));
    Sorting.Sort(Known(stored, latest), Sorting.ByKey(TimeOf))
  }

  /** Every entry walked is a stored entry with the latest occurrence of its callsign, and conversely. */
  lemma {:induction false} RebuildOrderEntries(stored: LinkedMap.Entries<string, int>, latest: seq<Arrival>)
    ensures forall e | e in RebuildOrder(stored, latest) ::
              (e.callsign, e.scheduledTime) in stored && LatestOccurrence(latest, e.callsign) == Some(e.occurrence)
    ensures forall entry | entry in stored && LatestOccurrence(latest, entry.0).Some? ::
              RebuildEntry(entry.0, entry.1, LatestOccurrence(latest, entry.0).value) in RebuildOrder(stored, latest)
  {
    var r, known := RebuildOrder(stored, latest), Known(stored, latest);
    forall e ensures e in r <==> e in known {
      assert e in r <==> e in multiset(r);
      assert e in known <==> e in multiset(known);
    }
  }

  lemma {:induction false} RebuildOrderKeepsDistinct(stored: LinkedMap.Entries<string, int>, latest: seq<Arrival>)
    requires LinkedMap.DistinctKeys(stored)
    ensures DistinctCallsigns(RebuildOrder(stored, latest))
  {
    var known := Known(stored, latest);
    KnownKeepsDistinct(stored, latest);
    Sorting.SortMap(known, Sorting.ByKey(TimeOf), CallsignOf);
    assert Callsigns(known) == Sorting.Map(known, CallsignOf);
    assert Callsigns(RebuildOrder(stored, latest)) == Sorting.Map(RebuildOrder(stored, latest), CallsignOf);
    Search.DistinctPermutation(Callsigns(RebuildOrder(stored, latest)), Callsigns(known));
    assert Search.Distinct(Callsigns(RebuildOrder(stored, latest)));
  }

  /** One step of the rebuild: the time stored for `order[i]`, given the rebuilt time of its leader. */
  function RebuildTime(order: seq<RebuildEntry>, i: nat, leaderTime: int): int
    requires i < |order|
  {
    if i == 0 then Max(order[i].scheduledTime, order[i].occurrence.estimatedTime)
    else Max(order[i].scheduledTime, CalculateFinalTime(order[i].occurrence, leaderTime, order[i - 1].occurrence))
  }

  /**
   * The times `rebuildSequence` has stored after its first `n` steps over
   * `order`; `RebuildTimesSpaced` says what they are.
   */
  function RebuildTimes(order: seq<RebuildEntry>, n: nat): (r: seq<int>)
    requires n <= |order|
    ensures |r| == n
  {
    if n == 0 then []
    else
      var p := RebuildTimes(order, n - 1);
      p + [RebuildTime(order, n - 1, if n == 1 then 0 else p[n - 2])]
  }

  /** The rebuild never lowers a stored time and never schedules an aircraft before its estimate. */
  lemma {:induction false} RebuildTimesLifted(order: seq<RebuildEntry>, n: nat)
    requires n <= |order|
    ensures forall i | 0 <= i < n ::
              RebuildTimes(order, n)[i] >= order[i].scheduledTime && RebuildTimes(order, n)[i] >= order[i].occurrence.estimatedTime
  {
    if n > 0 {
      RebuildTimesLifted(order, n - 1);
      var p := RebuildTimes(order, n - 1);
      assert RebuildTimes(order, n) == p + [RebuildTime(order, n - 1, if n == 1 then 0 else p[n - 2])];
    }
  }

  /** Every aircraft after the first is rebuilt at least the wake spacing behind its predecessor. */
  lemma {:induction false} RebuildTimesSpaced(order: seq<RebuildEntry>, n: nat)
    requires n <= |order|
    ensures forall i, j | 0 <= i && j == i + 1 && j < n ::
              RebuildTimes(order, n)[j] >= RebuildTimes(order, n)[i] + SpacingTime(order[i].occurrence, order[j].occurrence)
  {
    if n > 1 {
      RebuildTimesSpaced(order, n - 1);
      var p := RebuildTimes(order, n - 1);
      var t := RebuildTime(order, n - 1, p[n - 2]);
      assert RebuildTimes(order, n) == p + [t];
      assert t >= p[n - 2] + SpacingTime(order[n - 2].occurrence, order[n - 1].occurrence);
    }
  }

  /** Hence the rebuilt times never decrease along the order. */
  lemma {:induction false} RebuildTimesOrdered(order: seq<RebuildEntry>, n: nat)
    requires n <= |order|
    ensures forall i, j | 0 <= i <= j < n :: RebuildTimes(order, n)[i] <= RebuildTimes(order, n)[j]
  {
    if n > 1 {
      RebuildTimesOrdered(order, n - 1);
      RebuildTimesSpaced(order, n);
      var p := RebuildTimes(order, n - 1);
      var r := RebuildTimes(order, n);
      assert r == p + [r[n - 1]];
      assert r[n - 2] <= r[n - 1];
    }
  }

  /** The times of the whole rebuild. */
  function Rebuilt(order: seq<RebuildEntry>): (r: seq<int>)
    ensures |r| == |order|
  {
    RebuildTimes(order, |order|)
  }

  /** The map after storing `times[j]` for `order[j]`, one entry after the other, for every `j < |times|`. */
  function PutAll(e: LinkedMap.Entries<string, int>, order: seq<RebuildEntry>, times: seq<int>): (r: LinkedMap.Entries<string, int>)
    requires |times| <= |order|
    decreases |times|
  {
    if times == [] then e
    else
      var n := |times| - 1;
      LinkedMap.Put(PutAll(e, order, times[..n]), order[n].callsign, times[n])
  }

  /** Storing into keys that are already present adds none and keeps the keys distinct. */
  lemma {:induction false} PutAllKeys(e: LinkedMap.Entries<string, int>, order: seq<RebuildEntry>, times: seq<int>)
    requires |times| <= |order| && LinkedMap.DistinctKeys(e)
    requires forall j | 0 <= j < |order| :: order[j].callsign in LinkedMap.Keys(e)
    ensures LinkedMap.Keys(PutAll(e, order, times)) == LinkedMap.Keys(e)
    ensures LinkedMap.DistinctKeys(PutAll(e, order, times))
  {
    if times != [] {
      var n := |times| - 1;
      PutAllKeys(e, order, times[..n]);
      LinkedMap.PutKeepsDistinct(PutAll(e, order, times[..n]), order[n].callsign, times[n]);
    }
  }

  /** A key none of the stores touches keeps its value. */
  lemma {:induction false} PutAllOthers(e: LinkedMap.Entries<string, int>, order: seq<RebuildEntry>, times: seq<int>, k: string)
    requires |times| <= |order|
    requires forall j | 0 <= j < |times| :: order[j].callsign != k
    ensures LinkedMap.Get(PutAll(e, order, times), k) == LinkedMap.Get(e, k)
  {
    if times != [] {
      var n := |times| - 1;
      PutAllOthers(e, order, times[..n], k);
      LinkedMap.GetPut(PutAll(e, order, times[..n]), order[n].callsign, times[n], k);
    }
  }

  /** With distinct callsigns, every stored entry holds the time stored for it. */
  lemma {:induction false} PutAllStored(e: LinkedMap.Entries<string, int>, order: seq<RebuildEntry>, times: seq<int>, j: nat)
    requires |times| <= |order| && DistinctCallsigns(order) && j < |times|
    ensures LinkedMap.Get(PutAll(e, order, times), order[j].callsign) == Some(times[j])
  {
    var n := |times| - 1;
    if j < n {
      PutAllStored(e, order, times[..n], j);
      LinkedMap.GetPut(PutAll(e, order, times[..n]), order[n].callsign, times[n], order[j].callsign);
    }
  }

  /** The walked entries have distinct callsigns, and each holds its stored time and latest occurrence. */
  ghost predicate Walkable(e: LinkedMap.Entries<string, int>, sorted: seq<RebuildEntry>, latest: seq<Arrival>)
  {
    && DistinctCallsigns(sorted)
    && (forall j | 0 <= j < |sorted| :: LinkedMap.Get(e, sorted[j].callsign) == Some(sorted[j].scheduledTime))
    && (forall j | 0 <= j < |sorted| :: LatestOccurrence(latest, sorted[j].callsign) == Some(sorted[j].occurrence))
  }

  lemma {:induction false} RebuildStart(e: LinkedMap.Entries<string, int>, latest: seq<Arrival>)
    requires LinkedMap.DistinctKeys(e)
    ensures Walkable(e, RebuildOrder(e, latest), latest)
  {
    var sorted := RebuildOrder(e, latest);
    RebuildOrderEntries(e, latest);
    RebuildOrderKeepsDistinct(e, latest);
    forall j | 0 <= j < |sorted|
      ensures LinkedMap.Get(e, sorted[j].callsign) == Some(sorted[j].scheduledTime)
      ensures LatestOccurrence(latest, sorted[j].callsign) == Some(sorted[j].occurrence)
    {
      assert sorted[j] in sorted;
      LinkedMap.GetMember(e, (sorted[j].callsign, sorted[j].scheduledTime));
    }
  }

  /**
   * What the rebuild loop reads at index `i`: the entry's own stored time, its
   * leader's rebuilt time and its leader's latest occurrence.
   */
  lemma {:induction false} RebuildLookups(e: LinkedMap.Entries<string, int>, sorted: seq<RebuildEntry>, latest: seq<Arrival>, i: nat)
    requires i < |sorted| && Walkable(e, sorted, latest)
    ensures LinkedMap.Get(PutAll(e, sorted, RebuildTimes(sorted, i)), sorted[i].callsign) == Some(sorted[i].scheduledTime)
    ensures i > 0 ==> LinkedMap.Get(PutAll(e, sorted, RebuildTimes(sorted, i)), sorted[i - 1].callsign) == Some(RebuildTimes(sorted, i)[i - 1])
    ensures i > 0 ==> LatestOccurrence(latest, sorted[i - 1].callsign) == Some(sorted[i - 1].occurrence)
  {
    PutAllOthers(e, sorted, RebuildTimes(sorted, i), sorted[i].callsign);
    if i > 0 {
      PutAllStored(e, sorted, RebuildTimes(sorted, i), i - 1);
    }
  }

  /** One more step of the loop stores one more rebuilt time. */
  lemma {:induction false} RebuildNext(e: LinkedMap.Entries<string, int>, sorted: seq<RebuildEntry>, i: nat, t: int)
    requires i < |sorted|
    requires t == RebuildTime(sorted, i, if i == 0 then 0 else RebuildTimes(sorted, i)[i - 1])
    ensures PutAll(e, sorted, RebuildTimes(sorted, i + 1)) == LinkedMap.Put(PutAll(e, sorted, RebuildTimes(sorted, i)), sorted[i].callsign, t)
  {
    RebuildTimesStep(sorted, i);
  }

  lemma {:induction false} RebuildTimesStep(sorted: seq<RebuildEntry>, i: nat)
    requires i < |sorted|
    ensures RebuildTimes(sorted, i + 1)[..i] == RebuildTimes(sorted, i)
    ensures RebuildTimes(sorted, i + 1)[i] == RebuildTime(sorted, i, if i == 0 then 0 else RebuildTimes(sorted, i)[i - 1])
  {
    var p := RebuildTimes(sorted, i);
    assert RebuildTimes(sorted, i + 1) == p + [RebuildTime(sorted, i, if i == 0 then 0 else p[i - 1])];
  }

  /** After the loop: every walked entry holds its rebuilt time, the others are untouched. */
  lemma {:induction false} RebuildDone(e: LinkedMap.Entries<string, int>, sorted: seq<RebuildEntry>, latest: seq<Arrival>)
    requires LinkedMap.DistinctKeys(e) && Walkable(e, sorted, latest)
    ensures var r := PutAll(e, sorted, Rebuilt(sorted));
            && LinkedMap.DistinctKeys(r) && LinkedMap.Keys(r) == LinkedMap.Keys(e)
            && (forall i | 0 <= i < |sorted| :: LinkedMap.Get(r, sorted[i].callsign) == Some(Rebuilt(sorted)[i]))
            && (forall k | k !in Callsigns(sorted) :: LinkedMap.Get(r, k) == LinkedMap.Get(e, k))
  {
    var times := Rebuilt(sorted);
    forall j | 0 <= j < |sorted| ensures sorted[j].callsign in LinkedMap.Keys(e) {
    }
    PutAllKeys(e, sorted, times);
    forall i | 0 <= i < |sorted| ensures LinkedMap.Get(PutAll(e, sorted, times), sorted[i].callsign) == Some(times[i]) {
      PutAllStored(e, sorted, times, i);
    }
    forall k | k !in Callsigns(sorted) ensures LinkedMap.Get(PutAll(e, sorted, times), k) == LinkedMap.Get(e, k) {
      forall j | 0 <= j < |times| ensures sorted[j].callsign != k {
        assert Callsigns(sorted)[j] == sorted[j].callsign;
      }
      PutAllOthers(e, sorted, times, k);
    }
  }

  /**
   * The map after the pass produced `result`: each arrival that got its first
   * `Ok` time during the pass is stored, in the order the pass met them.
   */
  function StoredAfter(before: LinkedMap.Entries<string, int>, result: seq<Arrival>): LinkedMap.Entries<string, int>
  {
    if result == [] then before
    else
      var prefix := result[..|result| - 1];
      var last := result[|result| - 1];
      var m := StoredAfter(before, prefix);
      if StoredTime(before, prefix, last.callsign).None? && last.sequenceStatus == Ok then
        LinkedMap.Put(m, last.callsign, last.scheduledTime)
      else m
  }

  /** The stored map answers every lookup with `StoredTime`. */
  lemma {:induction false} StoredAfterGet(before: LinkedMap.Entries<string, int>, result: seq<Arrival>, k: string)
    ensures LinkedMap.Get(StoredAfter(before, result), k) == StoredTime(before, result, k)
  {
    if result != [] {
      var prefix := result[..|result| - 1];
      var last := result[|result| - 1];
      assert result == prefix + [last];
      StoredAfterGet(before, prefix, k);
      FirstOkTimeAppend(prefix, last, k);
      if StoredTime(before, prefix, last.callsign).None? && last.sequenceStatus == Ok && k != last.callsign {
        LinkedMap.GetPut(StoredAfter(before, prefix), last.callsign, last.scheduledTime, k);
      }
    }
  }

  /** The pass keeps the keys distinct, and keeps the keys stored before it first and in their order. */
  lemma {:induction false} StoredAfterKeys(before: LinkedMap.Entries<string, int>, result: seq<Arrival>)
    requires LinkedMap.DistinctKeys(before)
    ensures LinkedMap.DistinctKeys(StoredAfter(before, result))
    ensures |LinkedMap.Keys(before)| <= |LinkedMap.Keys(StoredAfter(before, result))|
    ensures LinkedMap.Keys(StoredAfter(before, result))[..|before|] == LinkedMap.Keys(before)
  {
    if result != [] {
      var prefix := result[..|result| - 1];
      var last := result[|result| - 1];
      assert result == prefix + [last];
      StoredAfterStep(before, prefix, last);
      StoredAfterKeys(before, prefix);
      var m := StoredAfter(before, prefix);
      if StoredTime(before, prefix, last.callsign).None? && last.sequenceStatus == Ok {
        LinkedMap.PutKeepsDistinct(m, last.callsign, last.scheduledTime);
        PutKeepsPrefix(m, last.callsign, last.scheduledTime, |before|);
      }
    }
  }

  /** Putting a key keeps every prefix of the keys. */
  lemma {:induction false} PutKeepsPrefix(m: LinkedMap.Entries<string, int>, k: string, v: int, n: nat)
    requires n <= |m|
    ensures n <= |LinkedMap.Put(m, k, v)|
    ensures LinkedMap.Keys(LinkedMap.Put(m, k, v))[..n] == LinkedMap.Keys(m)[..n]
  {
    if k !in LinkedMap.Keys(m) {
      var keys := LinkedMap.Keys(m);
      assert (keys + [k])[..n] == keys[..n];
    }
  }

  /** What one step of the pass appends to the spec functions of the pass. */
  lemma {:induction false} PassStep(aah: map<string, bool>, before: LinkedMap.Entries<string, int>, result: seq<Arrival>, next: Arrival)
    ensures (result + [next])[..|result|] == result
    ensures StoredAfter(before, result + [next])
            == if StoredTime(before, result, next.callsign).None? && next.sequenceStatus == Ok
               then LinkedMap.Put(StoredAfter(before, result), next.callsign, next.scheduledTime)
               else StoredAfter(before, result)
    ensures AahAfter(aah, before, result + [next])
            == if StoredTime(before, result, next.callsign).Some? then AahAfter(aah, before, result)
               else AahAfter(aah, before, result)[next.callsign := next.sequenceStatus == Ok]
    ensures LastOk(result + [next]) == if next.sequenceStatus == Ok then Some(|result|) else LastOk(result)
  {
    StoredAfterStep(before, result, next);
    AahAfterStep(aah, before, result, next);
    LastOkStep(result, next);
  }

  lemma {:induction false} StoredAfterStep(before: LinkedMap.Entries<string, int>, result: seq<Arrival>, next: Arrival)
    ensures (result + [next])[..|result|] == result
    ensures StoredAfter(before, result + [next])
            == if StoredTime(before, result, next.callsign).None? && next.sequenceStatus == Ok
               then LinkedMap.Put(StoredAfter(before, result), next.callsign, next.scheduledTime)
               else StoredAfter(before, result)
  {
    assert (result + [next])[..|result|] == result;
  }

  lemma {:induction false} AahAfterStep(aah: map<string, bool>, before: LinkedMap.Entries<string, int>, result: seq<Arrival>, next: Arrival)
    ensures AahAfter(aah, before, result + [next])
            == if StoredTime(before, result, next.callsign).Some? then AahAfter(aah, before, result)
               else AahAfter(aah, before, result)[next.callsign := next.sequenceStatus == Ok]
  {
    assert (result + [next])[..|result|] == result;
  }

  lemma {:induction false} LastOkStep(result: seq<Arrival>, next: Arrival)
    ensures LastOk(result + [next]) == if next.sequenceStatus == Ok then Some(|result|) else LastOk(result)
  {
    var whole := result + [next];
    assert whole[|result|] == next;
    assert forall i | 0 <= i < |result| :: whole[i] == result[i];
  }

  /** `result` is what the pass produces for the first `|result|` sorted arrivals. */
  ghost predicate Passed(before: LinkedMap.Entries<string, int>, sorted: seq<Arrival>, result: seq<Arrival>)
    requires sorted != []
  {
    && |result| <= |sorted|
    && forall i | 0 <= i < |result| ::
         sorted[i].descentTrajectory != [] && result[i] == Outcome(before, sorted[0], result[..i], sorted[i])
  }

  lemma {:induction false} PassedNext(before: LinkedMap.Entries<string, int>, sorted: seq<Arrival>, result: seq<Arrival>, next: Arrival)
    requires sorted != [] && Passed(before, sorted, result) && |result| < |sorted|
    requires sorted[|result|].descentTrajectory != []
    requires next == Outcome(before, sorted[0], result, sorted[|result|])
    ensures Passed(before, sorted, result + [next])
  {
    var r := result + [next];
    forall i | 0 <= i < |r| ensures r[..i] == if i < |result| then result[..i] else result {
    }
  }

  /**
   * The loop of `updateSequence` over the sorted arrivals. It stops where the
   * source throws: at the first arrival with an empty trajectory, whose AAH
   * test is evaluated before anything else. Every arrival before that point
   * gets its `Outcome`, and the stored map and the AAH map are updated as the
   * pass goes.
   */
  method Pass(before: LinkedMap.Entries<string, int>, aah: map<string, bool>, sorted: seq<Arrival>)
    returns (result: seq<Arrival>, stored: LinkedMap.Entries<string, int>, aahOut: map<string, bool>)
    requires sorted != []
    ensures Passed(before, sorted, result)
    ensures |result| < |sorted| ==> sorted[|result|].descentTrajectory == []
    ensures stored == StoredAfter(before, result)
    ensures aahOut == AahAfter(aah, before, result)
  {
    result, stored, aahOut := [], before, aah;
    var lastSequenced: Option<Arrival> := None;
    var referenceTime := sorted[0].estimatedTime;
    var i := 0;
    while i < |sorted|
      invariant i == |result| && Passed(before, sorted, result)
      invariant stored == StoredAfter(before, result)
      invariant aahOut == AahAfter(aah, before, result)
      invariant lastSequenced.None? <==> LastOk(result).None?
      invariant lastSequenced.Some? ==> lastSequenced.value == result[LastOk(result).value]
      invariant referenceTime == if lastSequenced.Some? then lastSequenced.value.scheduledTime else sorted[0].estimatedTime
    {
      var current := sorted[i];
      var callsign := current.callsign;
      var isNowInAah := IsInAah(current);
      if isNowInAah.None? {
        // `firstOrNull()!!` throws
        return;
      }
      StoredAfterGet(before, result, callsign);
      var next;
      if LinkedMap.Get(stored, callsign).Some? {
        next := current.(sequenceStatus := Ok, scheduledTime := LinkedMap.Get(stored, callsign).value);
        referenceTime := next.scheduledTime;
        lastSequenced := Some(next);
      } else if isNowInAah.value {
        aahOut := aahOut[callsign := true];
        var finalTime;
        if lastSequenced.None? {
          finalTime := Max(current.estimatedTime, referenceTime);
        } else {
          finalTime := CalculateFinalTime(current, referenceTime, lastSequenced.value);
        }
        stored := LinkedMap.Put(stored, callsign, finalTime);
        next := current.(sequenceStatus := Ok, scheduledTime := finalTime);
        lastSequenced := Some(next);
        referenceTime := finalTime;
      } else {
        aahOut := aahOut[callsign := false];
        next := current.(sequenceStatus := AwaitingForSequence);
      }
      assert next == Outcome(before, sorted[0], result, current);
      PassStep(aah, before, result, next);
      PassedNext(before, sorted, result, next);
      result := result + [next];
      i := i + 1;
    }
  }

  /**
   * The loop of `rebuildSequence` over the map's entries: each walked entry
   * is lifted to its rebuilt time, the others keep theirs.
   */
  method RebuildEntries(entries: LinkedMap.Entries<string, int>, latest: seq<Arrival>) returns (r: LinkedMap.Entries<string, int>)
    requires LinkedMap.DistinctKeys(entries)
    ensures r == PutAll(entries, RebuildOrder(entries, latest), Rebuilt(RebuildOrder(entries, latest)))
  {
    var sorted := RebuildOrder(entries, latest);
    RebuildStart(entries, latest);
    r := entries;
    var i := 0;
    while i < |sorted|
      invariant i <= |sorted|
      invariant r == PutAll(entries, sorted, RebuildTimes(sorted, i))
    {
      r := RebuildStep(entries, sorted, latest, i, r);
      i := i + 1;
    }
  }

  /** The body of the `rebuildSequence` loop: stores the new time of the `i`th walked entry in the map `r` so far. */
  method RebuildStep(entries: LinkedMap.Entries<string, int>, sorted: seq<RebuildEntry>, latest: seq<Arrival>, i: nat,
                     r: LinkedMap.Entries<string, int>) returns (r': LinkedMap.Entries<string, int>)
    requires i < |sorted| && Walkable(entries, sorted, latest)
    requires r == PutAll(entries, sorted, RebuildTimes(sorted, i))
    ensures r' == PutAll(entries, sorted, RebuildTimes(sorted, i + 1))
  {
    var callsign := sorted[i].callsign;
    var occurrence := sorted[i].occurrence;
    RebuildLookups(entries, sorted, latest, i);
    var currentTime := LinkedMap.Get(r, callsign).value;
    var newTime;
    if i == 0 {
      newTime := Max(currentTime, occurrence.estimatedTime);
    } else {
      var leaderCallsign := sorted[i - 1].callsign;
      // never absent: entries without a latest occurrence were left out of `sorted`
      var leaderLatest := LatestOccurrence(latest, leaderCallsign);
      var requiredSpacingTime := CalculateFinalTime(occurrence, LinkedMap.Get(r, leaderCallsign).value, leaderLatest.value);
      newTime := Max(currentTime, requiredSpacingTime);
    }
    RebuildNext(entries, sorted, i, newTime);
    r' := LinkedMap.Put(r, callsign, newTime);
  }

  /** The pass never changes a time stored before it. */
  lemma {:induction false} PassKeepsStoredTimes(before: LinkedMap.Entries<string, int>, result: seq<Arrival>, k: string)
    requires LinkedMap.Get(before, k).Some?
    ensures LinkedMap.Get(StoredAfter(before, result), k) == LinkedMap.Get(before, k)
  {
    StoredAfterGet(before, result, k);
  }

  /** A callsign missing from the latest arrivals is not walked by the rebuild, so it keeps its time. */
  lemma {:induction false} RebuildSkipsAbsent(stored: LinkedMap.Entries<string, int>, latest: seq<Arrival>, k: string)
    requires forall i | 0 <= i < |latest| :: latest[i].callsign != k
    ensures k !in Callsigns(RebuildOrder(stored, latest))
  {
    var order := RebuildOrder(stored, latest);
    RebuildOrderEntries(stored, latest);
    forall i | 0 <= i < |order| ensures order[i].callsign != k {
      assert order[i] in order;
    }
  }

  class AmanDmanSequence {
    /** callsign -> scheduled time, in insertion order. */
    var currentSequence: LinkedMap.Entries<string, int>
    var latestArrivals: seq<Arrival>
    var inAah: map<string, bool>

    ghost predicate Valid()
      reads this
    {
      LinkedMap.DistinctKeys(currentSequence)
    }

    constructor()
      ensures Valid()
      ensures currentSequence == [] && latestArrivals == [] && inAah == map[]
    {
      currentSequence := [];
      latestArrivals := [];
      inAah := map[];
    }

    /** `reSchedule`: forgets every scheduled time. */
    method ReSchedule()
      modifies this
      ensures Valid()
      ensures currentSequence == []
      ensures latestArrivals == old(latestArrivals) && inAah == old(inAah)
    {
      currentSequence := [];
    }

    /** `removeFromSequence`: forgets the aircraft's scheduled time and its AAH flag. */
    method RemoveFromSequence(callsign: string)
      modifies this
      requires Valid()
      ensures Valid()
      ensures currentSequence == LinkedMap.Remove(old(currentSequence), callsign)
      ensures LinkedMap.Get(currentSequence, callsign).None? && callsign !in inAah
      ensures inAah == old(inAah) - {callsign}
      ensures latestArrivals == old(latestArrivals)
    {
      currentSequence := LinkedMap.Remove(currentSequence, callsign);
      inAah := inAah - {callsign};
    }

    /**
     * `rebuildSequence`: walks the stored entries with a latest occurrence in
     * order of stored time and lifts each to its estimate (the first) or to
     * the final time behind its predecessor (the others).
     */
    method RebuildSequence()
      modifies this
      requires Valid()
      ensures Valid()
      ensures latestArrivals == old(latestArrivals) && inAah == old(inAah)
      ensures LinkedMap.Keys(currentSequence) == LinkedMap.Keys(old(currentSequence))
      ensures var order := RebuildOrder(old(currentSequence), latestArrivals);
              && (forall i | 0 <= i < |order| :: LinkedMap.Get(currentSequence, order[i].callsign) == Some(Rebuilt(order)[i]))
              && (forall k | k !in Callsigns(order) :: LinkedMap.Get(currentSequence, k) == LinkedMap.Get(old(currentSequence), k))
    {
      RebuildStart(currentSequence, latestArrivals);
      RebuildDone(currentSequence, RebuildOrder(currentSequence, latestArrivals), latestArrivals);
      currentSequence := RebuildEntries(currentSequence, latestArrivals);
    }

    /**
     * `updateSequence`. `None` stands for the exception thrown at the first
     * arrival with an empty trajectory; the maps then keep what the pass had
     * stored up to that point and no rebuild happens. `processed` is what the
     * pass produced, the whole result when it completes.
     */
    method UpdateSequence(arrivals: seq<Arrival>) returns (r: Option<seq<Arrival>>, ghost processed: seq<Arrival>)
      modifies this
      requires Valid()
      ensures Valid()
      ensures latestArrivals == arrivals
      ensures arrivals == [] ==> r == Some([]) && currentSequence == old(currentSequence) && inAah == old(inAah)
      ensures r.None? <==> exists i | 0 <= i < |arrivals| :: arrivals[i].descentTrajectory == []
      ensures arrivals != [] ==> Passed(old(currentSequence), ProcessingOrder(Lookup(old(currentSequence)), arrivals), processed)
      ensures arrivals != [] ==> inAah == AahAfter(old(inAah), old(currentSequence), processed)
      ensures r.Some? ==> r.value == processed && |processed| == |arrivals|
      ensures r.None? ==> currentSequence == StoredAfter(old(currentSequence), processed)
      // on success the stored map is rebuilt
      ensures r.Some? && arrivals != [] ==>
                var stored := StoredAfter(old(currentSequence), processed);
                var order := RebuildOrder(stored, arrivals);
                && LinkedMap.Keys(currentSequence) == LinkedMap.Keys(stored)
                && (forall i | 0 <= i < |order| :: LinkedMap.Get(currentSequence, order[i].callsign) == Some(Rebuilt(order)[i]))
                && (forall k | k !in Callsigns(order) :: LinkedMap.Get(currentSequence, k) == LinkedMap.Get(stored, k))
    {
      latestArrivals := arrivals;
      if arrivals == [] {
        return Some([]), [];
      }
      var sorted := ProcessingOrder(Lookup(currentSequence), arrivals);
      var result, stored, aahOut := Pass(currentSequence, inAah, sorted);
      WalkStopsOnEmptyTrajectory(sorted, arrivals, |result|);
      StoredAfterKeys(currentSequence, result);
      processed := result;
      currentSequence, inAah := stored, aahOut;
      if |result| < |sorted| {
        return None, processed;
      }
      RebuildSequence();
      r := Some(result);
    }

    /** `suggestScheduledTime`: stores the requested time and rebuilds. */
    method SuggestScheduledTime(callsign: string, scheduledTime: int)
      modifies this
      requires Valid()
      ensures Valid()
      // the aircraft is stored no earlier than requested
      ensures LinkedMap.Get(currentSequence, callsign).Some? && LinkedMap.Get(currentSequence, callsign).value >= scheduledTime
      ensures latestArrivals == old(latestArrivals) && inAah == old(inAah)
      // the map with the requested time stored is rebuilt
      ensures var stored := LinkedMap.Put(old(currentSequence), callsign, scheduledTime);
              var order := RebuildOrder(stored, latestArrivals);
              && LinkedMap.Keys(currentSequence) == LinkedMap.Keys(stored)
              && (forall i | 0 <= i < |order| :: LinkedMap.Get(currentSequence, order[i].callsign) == Some(Rebuilt(order)[i]))
              && (forall k | k !in Callsigns(order) :: LinkedMap.Get(currentSequence, k) == LinkedMap.Get(stored, k))
    {
      LinkedMap.PutKeepsDistinct(currentSequence, callsign, scheduledTime);
      currentSequence := LinkedMap.Put(currentSequence, callsign, scheduledTime);
      ghost var stored := currentSequence;
      RebuildSequence();
      var order := RebuildOrder(stored, latestArrivals);
      if callsign in Callsigns(order) {
        // the rebuilt time is no earlier than the stored one, which is the requested one
        var i :| 0 <= i < |order| && Callsigns(order)[i] == callsign;
        RebuildOrderEntries(stored, latestArrivals);
        assert order[i] in order;
        LinkedMap.GetMember(stored, (order[i].callsign, order[i].scheduledTime));
        RebuildTimesLifted(order, |order|);
      }
    }
  }
}
