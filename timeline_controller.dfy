/**
 * `recalculateSequence` of the early `TimelineController`: it walks the
 * arrivals of a timeline in time order and writes, into each arrival
 * occurrence, how much time the aircraft must lose (positive) or gain
 * (negative) to keep the minimum separation, carrying an accumulated delay
 * from one aircraft to the next.
 */
module TimelineControllerModel {
  import opened Wrappers
  import Sorting
  import Search

  /** 3 NM at an expected 180 kt on the final fix: 1.0 min, rounded to whole minutes, i.e. 60 s. */
  const MinSeparation: int := 60

  /** A runway arrival occurrence: its time is fixed, its time to lose or gain is written in place. */
  class ArrivalOccurrence {
    const time: int
    var timeToLooseOrGain: Option<int>

    constructor(time: int)
      ensures this.time == time && timeToLooseOrGain == None
    {
      this.time := time;
      timeToLooseOrGain := None;
    }
  }

  /** What a timeline shows: runway arrivals, and other occurrences that only have a time. */
  datatype TimelineItem = Arrival(occurrence: ArrivalOccurrence) | Other(time: int)

  function TimeOf(item: TimelineItem): int
  {
    match item
    case Arrival(o) => o.time
    case Other(t) => t
  }

  /** `filterIsInstance<RunwayArrivalOccurrence>()`: the arrivals, in list order. */
  function ArrivalsOf(items: seq<TimelineItem>): (r: seq<ArrivalOccurrence>)
    ensures forall i | 0 <= i < |r| :: Arrival(r[i]) in items
    ensures forall it | it in items && it.Arrival? :: it.occurrence in r
    ensures |r| <= |items|
  {
    if items == [] then []
    else
      var rest := ArrivalsOf(items[1..]);
      assert forall it | it in items :: it == items[0] || it in items[1..];
      match items[0]
      case Arrival(o) => [o] + rest
      case Other(_) => rest
  }

  /** The arrivals `recalculateSequence` walks: the items sorted by time, arrivals only. */
  function Sequence(items: seq<TimelineItem>): seq<ArrivalOccurrence>
  {
    ArrivalsOf(Sorting.Sort(items, Sorting.ByKey(TimeOf)))
  }

  function Times(sequence: seq<ArrivalOccurrence>): (r: seq<int>)
    ensures |r| == |sequence| && forall i | 0 <= i < |sequence| :: r[i] == sequence[i].time
  {
    seq(|sequence|, i requires 0 <= i < |sequence| => sequence[i].time)
  }

  /** Filtering keeps the time order of the sorted items. */
  lemma {:induction false} ArrivalsOfSorted(items: seq<TimelineItem>)
    requires Sorting.SortedBy(items, Sorting.ByKey(TimeOf))
    ensures forall i, j | 0 <= i < j < |ArrivalsOf(items)| :: ArrivalsOf(items)[i].time <= ArrivalsOf(items)[j].time
  {
    if items != [] {
      var rest := ArrivalsOf(items[1..]);
      ArrivalsOfSorted(items[1..]);
      forall k | 0 <= k < |rest| ensures TimeOf(items[0]) <= rest[k].time {
        assert Arrival(rest[k]) in items[1..];
        var m :| 0 <= m < |items[1..]| && items[1..][m] == Arrival(rest[k]);
        assert items[m + 1] == Arrival(rest[k]);
        assert Sorting.ByKey(TimeOf)(items[0], items[m + 1]);
        assert TimeOf(items[0]) <= TimeOf(items[m + 1]);
      }
    }
  }

  /** The walked arrivals are in time order. */
  lemma {:induction false} SequenceSorted(items: seq<TimelineItem>)
    ensures forall i, j | 0 <= i < j < |Sequence(items)| :: Sequence(items)[i].time <= Sequence(items)[j].time
  {
    Sorting.SortByKeyIsSorted(items, TimeOf);
    ArrivalsOfSorted(Sorting.Sort(items, Sorting.ByKey(TimeOf)));
  }

  /** Every walked arrival is one of the timeline's items. */
  lemma {:induction false} SequenceFromItems(items: seq<TimelineItem>)
    ensures forall i | 0 <= i < |Sequence(items)| :: Arrival(Sequence(items)[i]) in items
  {
    var sorted := Sorting.Sort(items, Sorting.ByKey(TimeOf));
    forall i | 0 <= i < |Sequence(items)| ensures Arrival(Sequence(items)[i]) in items {
      var it := Arrival(Sequence(items)[i]);
      assert it in sorted;
      assert it in multiset(sorted);
    }
  }

  /** The gap between aircraft `i` and its predecessor. */
  function TimeBehind(times: seq<int>, i: nat): int
    requires 1 <= i < |times|
  {
    times[i] - times[i - 1]
  }

  /** The gap between aircraft `i` and its successor; zero for the last aircraft. */
  function TimeAheadOfNext(times: seq<int>, i: nat): int
    requires i < |times|
  {
    if i + 1 < |times| then times[i + 1] - times[i] else 0
  }

  /**
   * One iteration of the walk, at an aircraft `timeBehind` seconds behind its
   * predecessor and `timeAheadOfNext` seconds ahead of its successor, with
   * accumulated delay `delay`: the new accumulated delay and the value
   * written into the aircraft, if any.
   */
  function Adjust(timeBehind: int, timeAheadOfNext: int, delay: int): (int, Option<int>)
  {
    if timeBehind < MinSeparation then
      var d := delay + (MinSeparation - timeBehind);
      (d, Some(d))
    else if timeAheadOfNext < MinSeparation then
      var timeToGain := MinSeparation - timeAheadOfNext;
      (if delay - timeToGain < 0 then 0 else delay - timeToGain, Some(-timeToGain))
    else (delay, None)
  }

  /** The iteration at aircraft `i` of the time-ordered `times`. */
  function AdjustAt(times: seq<int>, i: nat, delay: int): (int, Option<int>)
    requires 1 <= i < |times|
  {
    Adjust(TimeBehind(times, i), TimeAheadOfNext(times, i), delay)
  }

  /** The accumulated delay when the loop reaches aircraft `n`. */
  function DelayBefore(times: seq<int>, n: nat): int
    requires 1 <= n <= |times|
  {
    if n == 1 then 0 else AdjustAt(times, n - 1, DelayBefore(times, n - 1)).0
  }

  /** The value written into aircraft `i`, if any; the first aircraft is never written. */
  function Assigned(times: seq<int>, i: nat): Option<int>
    requires i < |times|
  {
    if i == 0 then None else AdjustAt(times, i, DelayBefore(times, i)).1
  }

  /** The accumulated delay is never negative. */
  lemma {:induction false} DelayNeverNegative(times: seq<int>, n: nat)
    requires 1 <= n <= |times|
    ensures DelayBefore(times, n) >= 0
  {
    if n > 1 {
      DelayNeverNegative(times, n - 1);
    }
  }

  /**
   * What happens at aircraft `i`: too close behind its predecessor, the
   * shortfall is added to the accumulated delay, which it must lose; else too
   * close ahead of its successor, it must gain the shortfall, which comes off
   * the accumulated delay (not below zero); else it is left alone.
   */
  lemma {:induction false} AssignedCases(times: seq<int>, i: nat)
    requires 1 <= i < |times|
    ensures i + 1 <= |times|
    ensures TimeBehind(times, i) < MinSeparation ==>
              && DelayBefore(times, i + 1) == DelayBefore(times, i) + (MinSeparation - TimeBehind(times, i))
              && Assigned(times, i) == Some(DelayBefore(times, i + 1))
              && DelayBefore(times, i + 1) > 0
    ensures TimeBehind(times, i) >= MinSeparation && TimeAheadOfNext(times, i) < MinSeparation ==>
              && Assigned(times, i) == Some(TimeAheadOfNext(times, i) - MinSeparation)
              && DelayBefore(times, i + 1) == Max0(DelayBefore(times, i) - (MinSeparation - TimeAheadOfNext(times, i)))
    ensures TimeBehind(times, i) >= MinSeparation && TimeAheadOfNext(times, i) >= MinSeparation ==>
              Assigned(times, i).None? && DelayBefore(times, i + 1) == DelayBefore(times, i)
  {
    DelayNeverNegative(times, i);
  }

  function Max0(x: int): (r: int)
    ensures r >= 0 && r >= x && (r == 0 || r == x)
  {
    if x < 0 then 0 else x
  }

  /** The last aircraft, when far enough behind its predecessor, is always told to gain the full minimum separation. */
  lemma {:induction false} LastAdequateGainsMinSeparation(times: seq<int>)
    requires |times| >= 2 && TimeBehind(times, |times| - 1) >= MinSeparation
    ensures Assigned(times, |times| - 1) == Some(-MinSeparation)
  {
  }

  /** In time order, a time to gain is never more than the minimum separation. */
  lemma {:induction false} GainBounded(times: seq<int>, i: nat)
    requires 1 <= i < |times|
    requires forall a, b | 0 <= a < b < |times| :: times[a] <= times[b]
    requires Assigned(times, i).Some? && Assigned(times, i).value < 0
    ensures -MinSeparation <= Assigned(times, i).value
  {
    DelayNeverNegative(times, i);
  }

  /** The times to lose or gain once the walk has passed the first `n` aircraft, starting from `before`. */
  function WrittenUpTo(before: seq<Option<int>>, times: seq<int>, n: nat): (r: seq<Option<int>>)
    requires |times| == |before| && n <= |before|
    ensures |r| == |before|
  {
    if n == 0 then before
    else
      var r := WrittenUpTo(before, times, n - 1);
      if Assigned(times, n - 1).Some? then r[n - 1 := Assigned(times, n - 1)] else r
  }

  /**
   * Once the walk has passed `n` aircraft, each of them that is assigned a
   * value holds it, and every other aircraft keeps the value it had.
   */
  lemma {:induction false} WrittenUpToAt(before: seq<Option<int>>, times: seq<int>, n: nat, j: nat)
    requires |times| == |before| && n <= |before| && j < |before|
    ensures WrittenUpTo(before, times, n)[j] == if j < n && Assigned(times, j).Some? then Assigned(times, j) else before[j]
  {
    if n > 0 {
      WrittenUpToAt(before, times, n - 1, j);
    }
  }

  /** The times to lose or gain held by the aircraft. */
  ghost function Values(sequence: seq<ArrivalOccurrence>): (r: seq<Option<int>>)
    reads sequence
    ensures |r| == |sequence| && forall i | 0 <= i < |sequence| :: r[i] == sequence[i].timeToLooseOrGain
  {
    seq(|sequence|, i requires 0 <= i < |sequence| reads sequence => sequence[i].timeToLooseOrGain)
  }

  /**
   * `recalculateSequence`. Each arrival occurrence is assumed to appear once
   * in the timeline's list, so that every write lands on its own aircraft.
   */
  method RecalculateSequence(arrivals: seq<TimelineItem>)
    requires Search.Distinct(Sequence(arrivals))
    modifies set it | it in arrivals && it.Arrival? :: it.occurrence
    ensures var sequence := Sequence(arrivals);
            Values(sequence) == WrittenUpTo(old(Values(sequence)), Times(sequence), |sequence|)
  {
    var sequence := Sequence(arrivals);
    SequenceFromItems(arrivals);
    assert forall o | o in sequence :: Arrival(o) in arrivals;
    Walk(sequence);
  }

  /** The loop of `recalculateSequence` over the time-ordered arrivals. */
  method Walk(sequence: seq<ArrivalOccurrence>)
    requires Search.Distinct(sequence)
    modifies sequence
    ensures Values(sequence) == WrittenUpTo(old(Values(sequence)), Times(sequence), |sequence|)
  {
    ghost var times := Times(sequence);
    ghost var before := Values(sequence);
    ghost var current := before;
    if sequence == [] {
      return;
    }
    var accumulatedDelay := 0;
    var i := 1;
    while i < |sequence|
      invariant 1 <= i <= |sequence|
      invariant accumulatedDelay == DelayBefore(times, i)
      invariant current == WrittenUpTo(before, times, i)
      invariant Holds(sequence, current)
    {
      WalkStep(times, before, i, accumulatedDelay, current);
      ghost var step := AdjustAt(times, i, accumulatedDelay);
      accumulatedDelay := Visit(sequence, i, accumulatedDelay, current);
      current := if step.1.Some? then current[i := step.1] else current;
      i := i + 1;
    }
  }

  /** The body of the loop at aircraft `i`: adjusts it if needed and returns the new accumulated delay. */
  method Visit(sequence: seq<ArrivalOccurrence>, i: nat, accumulatedDelay: int, ghost values: seq<Option<int>>)
      returns (delay: int)
    requires Search.Distinct(sequence) && 1 <= i < |sequence| && Holds(sequence, values)
    modifies sequence[i]
    ensures delay == AdjustAt(Times(sequence), i, accumulatedDelay).0
    ensures var v := AdjustAt(Times(sequence), i, accumulatedDelay).1;
            Holds(sequence, if v.Some? then values[i := v] else values)
  {
    var previous := sequence[i - 1];
    var occurrence := sequence[i];
    var timeBehind := occurrence.time - previous.time;
    var timeAheadOfNext := if i + 1 < |sequence| then sequence[i + 1].time - occurrence.time else 0;
    assert Adjust(timeBehind, timeAheadOfNext, accumulatedDelay) == AdjustAt(Times(sequence), i, accumulatedDelay);
    delay := accumulatedDelay;
    if timeBehind < MinSeparation {
      var timeToLose := MinSeparation - timeBehind;
      delay := delay + timeToLose;
      Write(sequence, i, Some(delay), values);
    } else if timeAheadOfNext < MinSeparation {
      var timeToGain := MinSeparation - timeAheadOfNext;
      Write(sequence, i, Some(-timeToGain), values);
      delay := delay - timeToGain;
      if delay < 0 {
        delay := 0;
      }
    }
  }

  /** One iteration of the walk, stated on the accumulated delay and the values written so far. */
  lemma {:induction false} WalkStep(times: seq<int>, before: seq<Option<int>>, i: nat, delay: int, current: seq<Option<int>>)
    requires 1 <= i < |times| && |before| == |times|
    requires delay == DelayBefore(times, i) && current == WrittenUpTo(before, times, i)
    ensures DelayBefore(times, i + 1) == AdjustAt(times, i, delay).0
    ensures WrittenUpTo(before, times, i + 1)
            == if AdjustAt(times, i, delay).1.Some? then current[i := AdjustAt(times, i, delay).1] else current
  {
  }

  /** The aircraft hold the values `values`. */
  ghost predicate Holds(sequence: seq<ArrivalOccurrence>, values: seq<Option<int>>)
    reads sequence
  {
    Values(sequence) == values
  }

  /** Writing into aircraft `i` changes its value and no other's. */
  method Write(sequence: seq<ArrivalOccurrence>, i: nat, v: Option<int>, ghost values: seq<Option<int>>)
    requires Search.Distinct(sequence) && i < |sequence| && Holds(sequence, values)
    modifies sequence[i]
    ensures Holds(sequence, values[i := v])
  {
    sequence[i].timeToLooseOrGain := v;
  }
}
