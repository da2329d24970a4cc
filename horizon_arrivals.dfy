/**
 * What the two horizon-based sequencers of the client share: the arrival
 * occurrence they read and copy, the order in which they walk the arrivals,
 * and the final time an aircraft entering the horizon gets behind its leader.
 */
module HorizonArrivals {
  import opened Wrappers
  import opened Spacing
  import Sorting

  /** The fixed speed at which both sequencers convert the wake spacing into time. */
  const FinalGroundSpeed: Knots := 140

  /**
   * The statuses a sequencer gives an arrival. `NeedsManualInsertion` is only
   * produced by `SequencingService`.
   */
  datatype SequenceStatus = AwaitingForSequence | Ok | ForManualReinsertion | NeedsManualInsertion

  /**
   * A point of the predicted descent, the first one being the current
   * position: time still to fly in whole seconds and distance still to fly
   * in whole NM. Both sequencers compare these with an integer limit, which
   * decides the same on the rounded-down value as on the exact one.
   */
  datatype TrajectoryPoint = TrajectoryPoint(remainingTime: int, remainingDistance: int)

  /** The fields of a runway arrival occurrence that the sequencers read or write. */
  datatype Arrival = Arrival(
    callsign: string,
    scheduledTime: int,
    estimatedTime: int,
    wakeCategory: char,
    descentTrajectory: seq<TrajectoryPoint>,
    sequenceStatus: SequenceStatus)

  function Max(a: int, b: int): (r: int)
    ensures r >= a && r >= b && (r == a || r == b)
  {
    if a >= b then a else b
  }

  /** The wake spacing behind a leader, flown at the fixed final speed. */
  function SpacingTime(leader: Arrival, follower: Arrival): nat
  {
    NmToSeconds(WakeSpacing(leader.wakeCategory, follower.wakeCategory), FinalGroundSpeed)
  }

  /**
   * `calculateFinalTime`: the later of the arrival's own estimate and the
   * reference time plus the wake spacing (3.0 NM by default) flown at 140 kt.
   */
  function CalculateFinalTime(a: Arrival, referenceTime: int, leader: Arrival): (r: int)
    ensures r >= a.estimatedTime && r >= referenceTime + SpacingTime(leader, a)
    ensures r == a.estimatedTime || r == referenceTime + SpacingTime(leader, a)
  {
    Max(a.estimatedTime, referenceTime + SpacingTime(leader, a))
  }

  /** The spacing time is at least the default 3.0 NM flown at 140 kt, i.e. 77 s. */
  lemma {:induction false} SpacingTimeAtLeastDefault(leader: Arrival, follower: Arrival)
    ensures SpacingTime(leader, follower) >= NmToSeconds(DefaultSpacingTenths, FinalGroundSpeed) == 77
  {
    NmToSecondsMonotone(DefaultSpacingTenths, WakeSpacing(leader.wakeCategory, follower.wakeCategory), FinalGroundSpeed);
  }

  /** Compares (stored time or "distant future", estimated time) lexicographically. */
  predicate KeyLe(x: Option<int>, ex: int, y: Option<int>, ey: int)
  {
    match (x, y)
    case (Some(s), Some(t)) => s < t || (s == t && ex <= ey)
    case (Some(_), None) => true
    case (None, Some(_)) => false
    case (None, None) => ex <= ey
  }

  /**
   * The `compareBy` of both sequencers: by the time stored for the callsign
   * (unscheduled ones last), then by estimated time.
   */
  function ArrivalOrder(stored: string -> Option<int>): (Arrival, Arrival) -> bool
  {
    (a: Arrival, b: Arrival) => KeyLe(stored(a.callsign), a.estimatedTime, stored(b.callsign), b.estimatedTime)
  }

  lemma {:induction false} ArrivalOrderIsTotalPreorder(stored: string -> Option<int>)
    ensures Sorting.TotalPreorder(ArrivalOrder(stored))
  {
    var le := ArrivalOrder(stored);
    forall a: Arrival, b: Arrival ensures le(a, b) || le(b, a) {
      assert le(a, b) == KeyLe(stored(a.callsign), a.estimatedTime, stored(b.callsign), b.estimatedTime);
      assert le(b, a) == KeyLe(stored(b.callsign), b.estimatedTime, stored(a.callsign), a.estimatedTime);
    }
    forall a: Arrival, b: Arrival, c: Arrival | le(a, b) && le(b, c) ensures le(a, c) {
      assert le(a, b) == KeyLe(stored(a.callsign), a.estimatedTime, stored(b.callsign), b.estimatedTime);
      assert le(b, c) == KeyLe(stored(b.callsign), b.estimatedTime, stored(c.callsign), c.estimatedTime);
      assert le(a, c) == KeyLe(stored(a.callsign), a.estimatedTime, stored(c.callsign), c.estimatedTime);
    }
  }

  /** The arrivals in the order the sequencers walk them. */
  function ProcessingOrder(stored: string -> Option<int>, arrivals: seq<Arrival>): (r: seq<Arrival>)
    ensures multiset(r) == multiset(arrivals)
    ensures Sorting.SortedBy(r, ArrivalOrder(stored))
  {
    ArrivalOrderIsTotalPreorder(stored);
    Sorting.SortIsSorted(arrivals, ArrivalOrder(stored));
    Sorting.Sort(arrivals, ArrivalOrder(stored))
  }

  /** The walk visits each arrival once: any property of all arrivals holds of the walk, and back. */
  lemma {:induction false} ProcessingOrderSameElements(stored: string -> Option<int>, arrivals: seq<Arrival>, a: Arrival)
    ensures a in ProcessingOrder(stored, arrivals) <==> a in arrivals
  {
    var r := ProcessingOrder(stored, arrivals);
    assert a in r <==> a in multiset(r);
    assert a in arrivals <==> a in multiset(arrivals);
  }

  /**
   * A walk over a reordering of the arrivals that stops at the first empty
   * trajectory stops early exactly when some arrival has an empty trajectory.
   */
  lemma {:induction false} WalkStopsOnEmptyTrajectory(sorted: seq<Arrival>, arrivals: seq<Arrival>, n: nat)
    requires multiset(sorted) == multiset(arrivals) && n <= |sorted|
    requires forall i | 0 <= i < n :: sorted[i].descentTrajectory != []
    requires n < |sorted| ==> sorted[n].descentTrajectory == []
    ensures n < |arrivals| <==> exists i | 0 <= i < |arrivals| :: arrivals[i].descentTrajectory == []
  {
    assert |sorted| == |multiset(sorted)| == |arrivals|;
    if n < |arrivals| {
      assert sorted[n] in multiset(arrivals);
    } else {
      forall i | 0 <= i < |arrivals| ensures arrivals[i].descentTrajectory != [] {
        assert arrivals[i] in multiset(sorted);
      }
    }
  }
}
