/**
 * The horizon-entry sequencer `SequencingService` of the client's service
 * package. It keeps a callsign -> scheduled time map and a callsign ->
 * "inside the active advisory horizon (AAH)" map. An aircraft is scheduled
 * only when it is seen crossing into the 100 NM horizon; one first seen
 * already inside needs a manual insertion. Scheduled times are never changed.
 */
module SequencingServiceModel {
  import opened Wrappers
  import opened HorizonArrivals

  /** An arrival is inside the AAH when it is less than 100 NM from landing. */
  const AahDistance: int := 100

  /**
   * `isInAAH`, which reads the first trajectory point's remaining distance with
   * `!!`: `None` stands for the exception an empty trajectory raises.
   */
  function IsInAah(a: Arrival): (r: Option<bool>)
    ensures r.None? <==> a.descentTrajectory == []
    ensures r.Some? ==> (r.value <==> a.descentTrajectory[0].remainingDistance < AahDistance)
  {
    if a.descentTrajectory == [] then None
    else Some(a.descentTrajectory[0].remainingDistance < AahDistance)
  }

  /** The stored time of a callsign, as the sort of `sequenceArrivals` reads it. */
  function Lookup(schedule: map<string, int>): string -> Option<int>
  {
    (callsign: string) => if callsign in schedule then Some(schedule[callsign]) else None
  }

  /** The two maps and the two loop variables of `sequenceArrivals`. */
  datatype PassState = PassState(
    schedule: map<string, int>,
    inAah: map<string, bool>,
    lastSequenced: Option<Arrival>,
    referenceTime: int)

  /** Which branch of the `when` an arrival took. */
  datatype Branch = Sequenced | Entering | FirstSeenInside | Outside | StillInside

  /**
   * One arrival of the loop: the new state, the occurrence returned and the
   * branch taken. With `advanceReference` false this is the code as written,
   * where an aircraft entering the horizon becomes the last sequenced one but
   * the reference time stays behind; with it true the reference time moves to
   * the time just given, as in the client's later `AmanDmanSequence`.
   */
  function Step(s: PassState, current: Arrival, advanceReference: bool): (r: (PassState, Arrival, Branch))
    requires current.descentTrajectory != []
    ensures r.1.callsign == current.callsign && r.1.estimatedTime == current.estimatedTime
    ensures r.1.wakeCategory == current.wakeCategory
    // already scheduled: OK at the stored time, nothing stored changes
    ensures current.callsign in s.schedule ==>
              r.2 == Sequenced && r.1 == current.(sequenceStatus := Ok, scheduledTime := s.schedule[current.callsign])
              && r.0.schedule == s.schedule && r.0.inAah == s.inAah
    // crossing into the horizon: scheduled no earlier than its estimate and at least the wake spacing
    // for the last sequenced aircraft after the reference time (which, as written, stays at the time
    // the last already scheduled aircraft set, not the time just given to an entering one)
    ensures current.callsign !in s.schedule && current.callsign in s.inAah && !s.inAah[current.callsign]
            && IsInAah(current) == Some(true) ==>
              && r.2 == Entering && r.1.sequenceStatus == Ok
              && r.1.scheduledTime >= current.estimatedTime
              && (s.lastSequenced.Some? ==> r.1.scheduledTime >= s.referenceTime + SpacingTime(s.lastSequenced.value, current))
              && r.0.schedule == s.schedule[current.callsign := r.1.scheduledTime]
              && r.0.inAah == s.inAah[current.callsign := true]
    // first seen already inside: needs a manual insertion, is not scheduled
    ensures current.callsign !in s.schedule && current.callsign !in s.inAah && IsInAah(current) == Some(true) ==>
              r.2 == FirstSeenInside && r.1 == current.(sequenceStatus := NeedsManualInsertion)
              && r.0.schedule == s.schedule && r.0.inAah == s.inAah[current.callsign := true]
    // outside and not scheduled: awaiting, marked outside
    ensures current.callsign !in s.schedule && IsInAah(current) == Some(false) ==>
              r.2 == Outside && r.1 == current.(sequenceStatus := AwaitingForSequence)
              && r.0.schedule == s.schedule && r.0.inAah == s.inAah[current.callsign := false]
    // inside, marked inside, never scheduled: returned as it came, nothing changes
    ensures current.callsign !in s.schedule && current.callsign in s.inAah && s.inAah[current.callsign]
            && IsInAah(current) == Some(true) ==>
              r.2 == StillInside && r.1 == current && r.0 == s
  {
    var callsign := current.callsign;
    var isNowInAah := IsInAah(current).value;
    if callsign in s.schedule then
      var t := s.schedule[callsign];
      (s.(referenceTime := t, lastSequenced := Some(current)), current.(sequenceStatus := Ok, scheduledTime := t), Sequenced)
    else if callsign in s.inAah && !s.inAah[callsign] && isNowInAah then
      var finalTime := if s.lastSequenced.None? then Max(current.estimatedTime, s.referenceTime)
                       else CalculateFinalTime(current, s.referenceTime, s.lastSequenced.value);
      var s' := s.(schedule := s.schedule[callsign := finalTime], inAah := s.inAah[callsign := true],
                   lastSequenced := Some(current));
      (if advanceReference then s'.(referenceTime := finalTime) else s',
       current.(sequenceStatus := Ok, scheduledTime := finalTime), Entering)
    else if callsign !in s.inAah && isNowInAah then
      (s.(inAah := s.inAah[callsign := true]), current.(sequenceStatus := NeedsManualInsertion), FirstSeenInside)
    else if !isNowInAah then
      (s.(inAah := s.inAah[callsign := false]), current.(sequenceStatus := AwaitingForSequence), Outside)
    else
      (s, current, StillInside)
  }

  /** No arrival of `xs` has an empty trajectory. */
  predicate Flyable(xs: seq<Arrival>)
  {
    forall i | 0 <= i < |xs| :: xs[i].descentTrajectory != []
  }

  /** A flyable prefix says every aircraft before its end has a trajectory. */
  lemma {:induction false} FlyablePrefix(xs: seq<Arrival>, n: nat)
    requires n <= |xs| && Flyable(xs[..n])
    ensures forall i | 0 <= i < n :: xs[i].descentTrajectory != []
  {
    forall i | 0 <= i < n ensures xs[i].descentTrajectory != [] {
      assert xs[..n][i] == xs[i];
    }
  }

  /** The loop over `xs` from state `s0`: the final state, the occurrences returned and the branches taken. */
  function Run(s0: PassState, xs: seq<Arrival>, advanceReference: bool): (r: (PassState, seq<Arrival>, seq<Branch>))
    requires Flyable(xs)
    ensures |r.1| == |xs| && |r.2| == |xs|
    decreases |xs|
  {
    if xs == [] then (s0, [], [])
    else
      var n := |xs| - 1;
      var p := Run(s0, xs[..n], advanceReference);
      var st := Step(p.0, xs[n], advanceReference);
      (st.0, p.1 + [st.1], p.2 + [st.2])
  }

  /** One more arrival extends the run by one step. */
  lemma {:induction false} RunNext(s0: PassState, xs: seq<Arrival>, i: nat, advanceReference: bool)
    requires i < |xs| && Flyable(xs[..i + 1])
    ensures Flyable(xs[..i])
    ensures var p := Run(s0, xs[..i], advanceReference);
            var st := Step(p.0, xs[i], advanceReference);
            Run(s0, xs[..i + 1], advanceReference) == (st.0, p.1 + [st.1], p.2 + [st.2])
  {
    assert xs[..i + 1][..i] == xs[..i];
    assert xs[..i + 1][i] == xs[i];
  }

  /** Each returned occurrence is the step's answer in the state the loop had reached. */
  lemma {:induction false} RunOutputs(s0: PassState, xs: seq<Arrival>, advanceReference: bool, i: nat)
    requires Flyable(xs) && i < |xs|
    ensures Flyable(xs[..i])
    ensures var st := Step(Run(s0, xs[..i], advanceReference).0, xs[i], advanceReference);
            Run(s0, xs, advanceReference).1[i] == st.1 && Run(s0, xs, advanceReference).2[i] == st.2
  {
    var n := |xs| - 1;
    assert xs[..i] == xs[..n][..i];
    if i < n {
      RunOutputs(s0, xs[..n], advanceReference, i);
    } else {
      assert xs[..n] == xs[..i];
    }
  }

  /** Schedule entries are only ever inserted: every stored time survives unchanged. */
  lemma {:induction false} RunKeepsSchedule(s0: PassState, xs: seq<Arrival>, advanceReference: bool)
    requires Flyable(xs)
    ensures forall k | k in s0.schedule ::
              k in Run(s0, xs, advanceReference).0.schedule && Run(s0, xs, advanceReference).0.schedule[k] == s0.schedule[k]
  {
    if xs != [] {
      RunKeepsSchedule(s0, xs[..|xs| - 1], advanceReference);
    }
  }

  /** Index of the last aircraft before `j` that became the last sequenced one, if any. */
  function LastLeader(branches: seq<Branch>, j: nat): (r: Option<nat>)
    requires j <= |branches|
    ensures r.Some? ==> r.value < j && branches[r.value] in {Sequenced, Entering}
    ensures r.Some? ==> forall i | r.value < i < j :: branches[i] !in {Sequenced, Entering}
    ensures r.None? ==> forall i | 0 <= i < j :: branches[i] !in {Sequenced, Entering}
  {
    if j == 0 then None
    else if branches[j - 1] in {Sequenced, Entering} then Some(j - 1)
    else LastLeader(branches, j - 1)
  }

  /**
   * With the reference time advanced, the loop state remembers the last
   * sequenced aircraft and the time returned for it.
   */
  ghost predicate TracksLeader(s: PassState, xs: seq<Arrival>, out: seq<Arrival>, branches: seq<Branch>)
    requires |xs| == |out| == |branches|
  {
    match LastLeader(branches, |branches|)
    case None => s.lastSequenced.None?
    case Some(i) => s.lastSequenced == Some(xs[i]) && s.referenceTime == out[i].scheduledTime
  }

  lemma {:induction false} StepTracksLeader(s: PassState, xs: seq<Arrival>, out: seq<Arrival>, branches: seq<Branch>, x: Arrival)
    requires |xs| == |out| == |branches| && TracksLeader(s, xs, out, branches)
    requires x.descentTrajectory != []
    ensures var st := Step(s, x, true); TracksLeader(st.0, xs + [x], out + [st.1], branches + [st.2])
  {
    var st := Step(s, x, true);
    var n := |branches|;
    var b := branches + [st.2];
    LastLeaderPrefix(b, branches, n);
    match LastLeader(branches, n)
    case None =>
    case Some(i) =>
      assert (xs + [x])[i] == xs[i];
      assert (out + [st.1])[i] == out[i];
  }

  lemma {:induction false} RunTracksLeader(s0: PassState, xs: seq<Arrival>)
    requires Flyable(xs) && s0.lastSequenced.None?
    ensures var r := Run(s0, xs, true); TracksLeader(r.0, xs, r.1, r.2)
  {
    if xs != [] {
      var n := |xs| - 1;
      RunTracksLeader(s0, xs[..n]);
      var p := Run(s0, xs[..n], true);
      StepTracksLeader(p.0, xs[..n], p.1, p.2, xs[n]);
      assert xs[..n] + [xs[n]] == xs;
    }
  }

  lemma {:induction false} LastLeaderPrefix(b: seq<Branch>, c: seq<Branch>, n: nat)
    requires n <= |b| && n <= |c| && b[..n] == c[..n]
    ensures LastLeader(b, n) == LastLeader(c, n)
  {
    if n > 0 {
      assert b[n - 1] == b[..n][n - 1] == c[..n][n - 1] == c[n - 1];
      assert b[..n - 1] == b[..n][..n - 1];
      assert c[..n - 1] == c[..n][..n - 1];
      LastLeaderPrefix(b, c, n - 1);
    }
  }

  /** The run over a prefix is the prefix of the run. */
  lemma {:induction false} RunPrefix(s0: PassState, xs: seq<Arrival>, j: nat, advanceReference: bool)
    requires Flyable(xs) && j <= |xs|
    ensures Flyable(xs[..j])
    ensures Run(s0, xs[..j], advanceReference).1 == Run(s0, xs, advanceReference).1[..j]
    ensures Run(s0, xs[..j], advanceReference).2 == Run(s0, xs, advanceReference).2[..j]
  {
    if j < |xs| {
      var n := |xs| - 1;
      assert xs[..n][..j] == xs[..j];
      RunPrefix(s0, xs[..n], j, advanceReference);
      var r, p := Run(s0, xs, advanceReference), Run(s0, xs[..n], advanceReference);
      assert r.1[..n] == p.1 && r.2[..n] == p.2;
      assert r.1[..j] == p.1[..j] && r.2[..j] == p.2[..j];
    } else {
      assert xs[..j] == xs;
    }
  }

  /**
   * With the reference time advanced, every aircraft crossing into the horizon
   * is scheduled at least the wake spacing behind the last aircraft sequenced
   * before it, and no earlier than its estimate.
   */
  lemma {:induction false} RunSpacesEntering(s0: PassState, xs: seq<Arrival>, j: nat)
    requires Flyable(xs) && s0.lastSequenced.None? && j < |xs|
    requires Run(s0, xs, true).2[j] == Entering
    ensures Run(s0, xs, true).1[j].scheduledTime >= xs[j].estimatedTime
    ensures LastLeader(Run(s0, xs, true).2, j).Some? ==>
              var i := LastLeader(Run(s0, xs, true).2, j).value;
              Run(s0, xs, true).1[j].scheduledTime >= Run(s0, xs, true).1[i].scheduledTime + SpacingTime(xs[i], xs[j])
  {
    var r := Run(s0, xs, true);
    RunOutputs(s0, xs, true, j);
    RunPrefix(s0, xs, j, true);
    var p := Run(s0, xs[..j], true);
    RunTracksLeader(s0, xs[..j]);
    LastLeaderPrefix(r.2, p.2, j);
    match LastLeader(p.2, j)
    case None =>
    case Some(i) =>
      assert xs[..j][i] == xs[i];
      assert p.1[i] == r.1[i];
  }

  /**
   * As written, the reference time stays behind after an aircraft enters:
   * three aircraft crossing into the horizon together, with equal estimates
   * and medium wake, get 1000, 1077 and 1077 s, so the third is not spaced
   * behind the second.
   */
  lemma {:induction false} ReferenceNotAdvancedBreaksSpacing()
    ensures var xs := [Crossing("A"), Crossing("B"), Crossing("C")];
            var r := Run(Waiting(), xs, false);
            && r.2 == [Entering, Entering, Entering]
            && LastLeader(r.2, 2) == Some(1)
            && r.1[1].scheduledTime == r.1[2].scheduledTime == 1077
            && r.1[2].scheduledTime < r.1[1].scheduledTime + SpacingTime(xs[1], xs[2])
  {
    var xs := [Crossing("A"), Crossing("B"), Crossing("C")];
    RunAsWrittenThree();
    assert SpacingTime(xs[1], xs[2]) == 77;
  }

  /** Three aircraft marked outside the horizon, nothing scheduled, reference time 1000 s. */
  function Waiting(): PassState
  {
    PassState(map[], map["A" := false, "B" := false, "C" := false], None, 1000)
  }

  /** `Waiting` after "A" entered at 1000 s. */
  function AfterA(): PassState
  {
    PassState(map["A" := 1000], map["A" := true, "B" := false, "C" := false], Some(Crossing("A")), 1000)
  }

  /** `AfterA` after "B" entered at 1077 s, the reference time left at 1000 s. */
  function AfterB(): PassState
  {
    PassState(map["A" := 1000, "B" := 1077], map["A" := true, "B" := true, "C" := false], Some(Crossing("B")), 1000)
  }

  /** The occurrence returned for a crossing aircraft scheduled at `t`. */
  function Given(callsign: string, t: int): Arrival
  {
    Crossing(callsign).(sequenceStatus := Ok, scheduledTime := t)
  }

  lemma {:induction false} StepAsWrittenA()
    ensures Step(Waiting(), Crossing("A"), false) == (AfterA(), Given("A", 1000), Entering)
  {
    assert Waiting().inAah["A" := true] == AfterA().inAah;
  }

  lemma {:induction false} StepAsWrittenB()
    ensures Step(AfterA(), Crossing("B"), false) == (AfterB(), Given("B", 1077), Entering)
  {
    assert SpacingTime(Crossing("A"), Crossing("B")) == 77;
    assert AfterA().inAah["B" := true] == AfterB().inAah;
  }

  lemma {:induction false} StepAsWrittenC()
    ensures Step(AfterB(), Crossing("C"), false).1 == Given("C", 1077)
    ensures Step(AfterB(), Crossing("C"), false).2 == Entering
  {
    assert SpacingTime(Crossing("B"), Crossing("C")) == 77;
  }

  lemma {:induction false} RunAsWrittenThree()
    ensures Run(Waiting(), [Crossing("A"), Crossing("B"), Crossing("C")], false).1
            == [Given("A", 1000), Given("B", 1077), Given("C", 1077)]
    ensures Run(Waiting(), [Crossing("A"), Crossing("B"), Crossing("C")], false).2 == [Entering, Entering, Entering]
  {
    var xs := [Crossing("A"), Crossing("B"), Crossing("C")];
    StepAsWrittenA();
    StepAsWrittenB();
    StepAsWrittenC();
    assert xs[..0] == [];
    RunNext(Waiting(), xs, 0, false);
    RunNext(Waiting(), xs, 1, false);
    RunNext(Waiting(), xs, 2, false);
    assert xs[..3] == xs;
  }

  /** An aircraft 50 NM out with medium wake and estimate 1000 s. */
  function Crossing(callsign: string): Arrival
  {
    Arrival(callsign, 0, 1000, 'M', [TrajectoryPoint(0, 50)], AwaitingForSequence)
  }

  /** The state `sequenceArrivals` starts from: nothing sequenced, reference time the first estimate. */
  function Start(schedule: map<string, int>, inAah: map<string, bool>, sorted: seq<Arrival>): PassState
    requires sorted != []
  {
    PassState(schedule, inAah, None, sorted[0].estimatedTime)
  }

  /**
   * The loop of `sequenceArrivals` over the sorted arrivals, as written: the
   * reference time is not advanced after an aircraft enters the horizon. It stops
   * where the source throws: at the first arrival with an empty trajectory,
   * whose horizon test is evaluated before anything else.
   */
  method Pass(schedule0: map<string, int>, inAah0: map<string, bool>, sorted: seq<Arrival>)
    returns (schedule: map<string, int>, inAah: map<string, bool>, result: seq<Arrival>)
    requires sorted != []
    ensures |result| <= |sorted| && Flyable(sorted[..|result|])
    ensures |result| < |sorted| ==> sorted[|result|].descentTrajectory == []
    ensures var r := Run(Start(schedule0, inAah0, sorted), sorted[..|result|], false);
            schedule == r.0.schedule && inAah == r.0.inAah && result == r.1
  {
    ghost var s0 := Start(schedule0, inAah0, sorted);
    schedule, inAah, result := schedule0, inAah0, [];
    var lastSequenced: Option<Arrival> := None;
    var referenceTime := sorted[0].estimatedTime;
    var i := 0;
    while i < |sorted|
      invariant i == |result| <= |sorted| && Flyable(sorted[..i])
      invariant Run(s0, sorted[..i], false).0 == PassState(schedule, inAah, lastSequenced, referenceTime)
      invariant Run(s0, sorted[..i], false).1 == result
    {
      var current := sorted[i];
      if current.descentTrajectory == [] {
        // `firstOrNull()?.remainingDistance!!` throws
        return;
      }
      var next;
      schedule, inAah, lastSequenced, referenceTime, next := Visit(schedule, inAah, lastSequenced, referenceTime, current);
      assert Flyable(sorted[..i + 1]);
      RunNext(s0, sorted, i, false);
      result := result + [next];
      i := i + 1;
    }
    assert sorted[..i] == sorted;
  }

  /** The body of the loop of `sequenceArrivals` for one arrival whose trajectory is not empty. */
  method Visit(schedule0: map<string, int>, inAah0: map<string, bool>, lastSequenced0: Option<Arrival>,
               referenceTime0: int, current: Arrival)
    returns (schedule: map<string, int>, inAah: map<string, bool>, lastSequenced: Option<Arrival>,
             referenceTime: int, next: Arrival)
    requires current.descentTrajectory != []
    ensures var st := Step(PassState(schedule0, inAah0, lastSequenced0, referenceTime0), current, false);
            st.0 == PassState(schedule, inAah, lastSequenced, referenceTime) && st.1 == next
  {
    schedule, inAah, lastSequenced, referenceTime := schedule0, inAah0, lastSequenced0, referenceTime0;
    var callsign := current.callsign;
    var wasInAah := if callsign in inAah then Some(inAah[callsign]) else None;
    var isNowInAah := IsInAah(current).value;
    var hasBeenSequenced := callsign in schedule;
    if hasBeenSequenced {
      var scheduledTime := schedule[callsign];
      next := current.(sequenceStatus := Ok, scheduledTime := scheduledTime);
      referenceTime := scheduledTime;
      lastSequenced := Some(current);
    } else if wasInAah == Some(false) && isNowInAah {
      inAah := inAah[callsign := true];
      var finalTime;
      if lastSequenced.None? {
        finalTime := Max(current.estimatedTime, referenceTime);
      } else {
        finalTime := CalculateFinalTime(current, referenceTime, lastSequenced.value);
      }
      schedule := schedule[callsign := finalTime];
      next := current.(sequenceStatus := Ok, scheduledTime := finalTime);
      lastSequenced := Some(current);
    } else if wasInAah.None? && isNowInAah {
      inAah := inAah[callsign := true];
      next := current.(sequenceStatus := NeedsManualInsertion);
    } else if !isNowInAah {
      inAah := inAah[callsign := false];
      next := current.(sequenceStatus := AwaitingForSequence);
    } else {
      next := current;
    }
  }

  /**
   * `sequenceArrivals` on the two maps passed in and returned. `None` stands
   * for the exception thrown at the first arrival with an empty trajectory;
   * the maps then hold what the loop had stored up to that point.
   * `processed` counts the arrivals the loop got through, all of them when
   * it completes.
   */
  method Sequence(schedule0: map<string, int>, inAah0: map<string, bool>, arrivals: seq<Arrival>)
    returns (r: Option<seq<Arrival>>, schedule: map<string, int>, inAah: map<string, bool>, ghost processed: nat)
    ensures arrivals == [] ==> r == Some([]) && schedule == schedule0 && inAah == inAah0
    ensures r.None? <==> exists i | 0 <= i < |arrivals| :: arrivals[i].descentTrajectory == []
    ensures arrivals != [] ==>
              var sorted := ProcessingOrder(Lookup(schedule0), arrivals);
              && processed <= |sorted| && Flyable(sorted[..processed])
              && var run := Run(Start(schedule0, inAah0, sorted), sorted[..processed], false);
                 && schedule == run.0.schedule && inAah == run.0.inAah
                 && (r.Some? ==> processed == |arrivals| && r.value == run.1)
    // stored times are never changed or removed
    ensures forall k | k in schedule0 :: k in schedule && schedule[k] == schedule0[k]
  {
    if arrivals == [] {
      return Some([]), schedule0, inAah0, 0;
    }
    var sorted := ProcessingOrder(Lookup(schedule0), arrivals);
    var result;
    schedule, inAah, result := Pass(schedule0, inAah0, sorted);
    FlyablePrefix(sorted, |result|);
    WalkStopsOnEmptyTrajectory(sorted, arrivals, |result|);
    RunKeepsSchedule(Start(schedule0, inAah0, sorted), sorted[..|result|], false);
    processed := |result|;
    if |result| < |sorted| {
      return None, schedule, inAah, processed;
    }
    r := Some(result);
  }

  class SequencingService {
    /** callsign -> scheduled time; entries are only ever added. */
    var schedule: map<string, int>
    var inAah: map<string, bool>

    constructor()
      ensures schedule == map[] && inAah == map[]
    {
      schedule := map[];
      inAah := map[];
    }

    /** `sequenceArrivals` on the service's own maps, as `Sequence` states it. */
    method SequenceArrivals(arrivals: seq<Arrival>) returns (r: Option<seq<Arrival>>, ghost processed: nat)
      modifies this
      ensures arrivals == [] ==> r == Some([]) && schedule == old(schedule) && inAah == old(inAah)
      ensures r.None? <==> exists i | 0 <= i < |arrivals| :: arrivals[i].descentTrajectory == []
      ensures arrivals != [] ==>
                var sorted := ProcessingOrder(Lookup(old(schedule)), arrivals);
                && processed <= |sorted| && Flyable(sorted[..processed])
                && var run := Run(Start(old(schedule), old(inAah), sorted), sorted[..processed], false);
                   && schedule == run.0.schedule && inAah == run.0.inAah
                   && (r.Some? ==> processed == |arrivals| && r.value == run.1)
      // stored times are never changed or removed
      ensures forall k | k in old(schedule) :: k in schedule && schedule[k] == old(schedule)[k]
    {
      r, schedule, inAah, processed := Sequence(schedule, inAah, arrivals);
    }

    /** `getScheduledTime`: the time stored for the callsign, absent for one never scheduled. */
    function GetScheduledTime(callsign: string): (r: Option<int>)
      reads this
      ensures r.None? <==> callsign !in schedule
      ensures r.Some? ==> r.value == schedule[callsign]
    {
      Lookup(schedule)(callsign)
    }
  }
}
