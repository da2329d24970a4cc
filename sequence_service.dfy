/**
 * The current arrival sequencer of the client (object `AmanDmanSequenceService`
 * in the model's domain service package): a list of landing slots that takes
 * in new aircraft, honours slots a controller assigned by hand, removes
 * aircraft and keeps wake-turbulence / minimum-separation spacing between
 * consecutive slots.
 *
 * Times are whole seconds; `now` stands for the wall clock the source reads.
 * Spacing distances are tenths of a nautical mile.
 */
module SequenceService {
  import opened Wrappers
  import opened Spacing
  import Search
  import Sorting

  /** Candidates are taken into the sequence when their preferred time is less than 30 min ahead. */
  const SequencingHorizon: int := 30 * 60
  /** Aircraft whose preferred time is less than 10 min ahead may not be overtaken. */
  const LockedHorizon: int := 10 * 60
  /** Kotlin's Int.MAX_VALUE, the sort key of aircraft without an original position. */
  const IntMax: int := 0x7fff_ffff

  datatype Candidate = Candidate(
    callsign: string,
    preferredTime: int,
    landingIas: Knots,
    wakeCategory: char,
    assignedRunway: Option<string>)

  datatype Place = Place(item: Candidate, scheduledTime: int, isManuallyAssigned: bool)

  function Id(p: Place): string { p.item.callsign }

  predicate InSequencingHorizon(c: Candidate, now: int)
  {
    c.preferredTime - now < SequencingHorizon
  }

  predicate InLockedHorizon(c: Candidate, now: int)
  {
    c.preferredTime - now < LockedHorizon
  }

  /** Two aircraft are on different runways only when both have a runway and the runways differ. */
  predicate OnDifferentRunways(a: Candidate, b: Candidate)
  {
    a.assignedRunway.Some? && b.assignedRunway.Some? && a.assignedRunway.value != b.assignedRunway.value
  }

  /** The spacing that applies between a leader and its follower, in tenths of a NM. */
  function EffectiveSpacing(leader: Candidate, follower: Candidate, minSep: nat): (r: nat)
    ensures OnDifferentRunways(leader, follower) ==> r == minSep
    ensures !OnDifferentRunways(leader, follower) ==>
              r >= minSep && r >= WakeSpacing(leader.wakeCategory, follower.wakeCategory)
              && (r == minSep || r == WakeSpacing(leader.wakeCategory, follower.wakeCategory))
  {
    if OnDifferentRunways(leader, follower) then minSep
    else
      var wake := WakeSpacing(leader.wakeCategory, follower.wakeCategory);
      if wake >= minSep then wake else minSep
  }

  /** Earliest time the follower may land behind a leader landing at `ref`. */
  function SafeLandingTime(ref: int, leader: Candidate, follower: Candidate, minSep: nat): (r: int)
    ensures r >= ref
  {
    ref + NmToSeconds(EffectiveSpacing(leader, follower, minSep), follower.landingIas)
  }

  /**
   * The spacing rule: on two different runways only the minimum separation
   * counts; otherwise at least the wake spacing (3.0 NM when the table has no
   * entry) and at least the minimum separation, flown at the follower's speed.
   */
  lemma {:induction false} SpacingRule(ref: int, leader: Candidate, follower: Candidate, minSep: nat)
    ensures OnDifferentRunways(leader, follower) ==>
              SafeLandingTime(ref, leader, follower, minSep) == ref + NmToSeconds(minSep, follower.landingIas)
    ensures !OnDifferentRunways(leader, follower) ==>
              && SafeLandingTime(ref, leader, follower, minSep) >= ref + NmToSeconds(minSep, follower.landingIas)
              && SafeLandingTime(ref, leader, follower, minSep)
                 >= ref + NmToSeconds(WakeSpacing(leader.wakeCategory, follower.wakeCategory), follower.landingIas)
              && SafeLandingTime(ref, leader, follower, minSep) >= ref + NmToSeconds(DefaultSpacingTenths, follower.landingIas)
  {
    var e := EffectiveSpacing(leader, follower, minSep);
    if !OnDifferentRunways(leader, follower) {
      NmToSecondsMonotone(minSep, e, follower.landingIas);
      NmToSecondsMonotone(WakeSpacing(leader.wakeCategory, follower.wakeCategory), e, follower.landingIas);
      NmToSecondsMonotone(DefaultSpacingTenths, e, follower.landingIas);
    }
  }

  /** `reSchedule`: the sequence is cleared so every aircraft is scheduled afresh. */
  function ReSchedule(places: seq<Place>): (r: seq<Place>)
    ensures r == []
  {
    []
  }

  /** `removeFromSequence`: keeps the places whose callsign is not among `callsigns`. */
  function RemoveFromSequence(places: seq<Place>, callsigns: seq<string>): (r: seq<Place>)
    ensures forall p :: p in r <==> p in places && Id(p) !in callsigns
    ensures |r| <= |places|
  {
    Search.Filter(places, (p: Place) => p.item.callsign !in callsigns)
  }

  /** Removal works place by place, so the kept places stay in their original order. */
  lemma {:induction false} RemoveFromSequenceKeepsOrder(a: seq<Place>, b: seq<Place>, callsigns: seq<string>)
    ensures RemoveFromSequence(a + b, callsigns) == RemoveFromSequence(a, callsigns) + RemoveFromSequence(b, callsigns)
    ensures forall p :: RemoveFromSequence([p], callsigns) == if Id(p) in callsigns then [] else [p]
  {
    Search.FilterAppend(a, b, (p: Place) => p.item.callsign !in callsigns);
  }

  /**
   * A follower that lands before `minTime` is moved: a manually assigned one
   * exactly to `minTime`, an automatic one to the later of `minTime` and its
   * preferred time. A follower that already lands late enough is left alone.
   */
  function ResolveConflict(follower: Place, minTime: int): (r: Place)
    ensures r.item == follower.item && r.isManuallyAssigned == follower.isManuallyAssigned
    ensures r.scheduledTime >= minTime && r.scheduledTime >= follower.scheduledTime
    ensures follower.scheduledTime >= minTime ==> r == follower
    ensures follower.scheduledTime < minTime && follower.isManuallyAssigned ==> r.scheduledTime == minTime
    ensures follower.scheduledTime < minTime && !follower.isManuallyAssigned ==>
              r.scheduledTime >= follower.item.preferredTime
              && (r.scheduledTime == minTime || r.scheduledTime == follower.item.preferredTime)
  {
    if follower.scheduledTime >= minTime then follower
    else if follower.isManuallyAssigned then follower.(scheduledTime := minTime)
    else if minTime >= follower.item.preferredTime then follower.(scheduledTime := minTime)
    else follower.(scheduledTime := follower.item.preferredTime)
  }

  /** Every place after `from` lands no earlier than the safe time behind its predecessor. */
  ghost predicate SpacedFrom(s: seq<Place>, from: nat, minSep: nat)
  {
    forall j | from < j < |s| ::
      s[j].scheduledTime >= SafeLandingTime(s[j - 1].scheduledTime, s[j - 1].item, s[j].item, minSep)
  }

  lemma {:induction false} SpacedIsOrdered(s: seq<Place>, from: nat, minSep: nat)
    requires SpacedFrom(s, from, minSep)
    ensures forall j | from < j < |s| :: s[j - 1].scheduledTime <= s[j].scheduledTime
  {
  }

  /** The list without the place at index `k`. */
  function RemoveAt(s: seq<Place>, k: nat): (r: seq<Place>)
    requires k < |s|
    ensures |r| == |s| - 1
    ensures forall j | 0 <= j < k :: r[j] == s[j]
    ensures forall j | k <= j < |r| :: r[j] == s[j + 1]
  {
    s[..k] + s[k + 1..]
  }

  /** Where a place requested for time `t` is inserted: before the first place landing after `t`. */
  function InsertionIndex(s: seq<Place>, t: int): (r: nat)
    ensures r <= |s|
    ensures forall j | 0 <= j < r :: s[j].scheduledTime <= t
    ensures r < |s| ==> s[r].scheduledTime > t
  {
    match Search.FirstIndex(s, (p: Place) => p.scheduledTime > t)
    case None => |s|
    case Some(i) => i
  }

  function IndexOfCallsign(s: seq<Place>, callsign: string): (r: Option<nat>)
    ensures r.None? <==> forall i | 0 <= i < |s| :: Id(s[i]) != callsign
    ensures r.Some? ==> r.value < |s| && Id(s[r.value]) == callsign
    ensures r.Some? ==> forall i | 0 <= i < r.value :: Id(s[i]) != callsign
  {
    Search.FirstIndex(s, (p: Place) => p.item.callsign == callsign)
  }

  /**
   * The spacing pass over the places after index `from`: each follower that
   * lands too close behind its (already adjusted) predecessor is pushed back
   * as `ResolveConflict` says. `suggestScheduledTime` runs it behind the moved
   * aircraft and `updateSequence` over the whole sorted list.
   */
  method PushBackFollowers(s: seq<Place>, from: nat, minSep: nat) returns (r: seq<Place>)
    requires from < |s|
    ensures |r| == |s|
    ensures r[..from + 1] == s[..from + 1]
    ensures forall j | from < j < |r| ::
              r[j] == ResolveConflict(s[j], SafeLandingTime(r[j - 1].scheduledTime, r[j - 1].item, s[j].item, minSep))
    ensures forall j | from < j < |r| :: r[j].scheduledTime >= s[j].scheduledTime
    ensures SpacedFrom(r, from, minSep)
  {
    r := s;
    var i := from + 1;
    while i < |r|
      invariant from + 1 <= i <= |r| == |s|
      invariant r[..from + 1] == s[..from + 1]
      invariant forall j | from < j < i ::
        r[j] == ResolveConflict(s[j], SafeLandingTime(r[j - 1].scheduledTime, r[j - 1].item, s[j].item, minSep))
      invariant forall j | i <= j < |r| :: r[j] == s[j]
    {
      var leader := r[i - 1];
      var follower := r[i];
      var minTime := SafeLandingTime(leader.scheduledTime, leader.item, follower.item, minSep);
      if follower.scheduledTime < minTime {
        var adjusted := if follower.isManuallyAssigned then minTime
                        else if minTime >= follower.item.preferredTime then minTime
                        else follower.item.preferredTime;
        r := r[i := follower.(scheduledTime := adjusted)];
      }
      i := i + 1;
    }
    forall j | from < j < |r|
      ensures r[j].scheduledTime >= s[j].scheduledTime
    {
      var _ := ResolveConflict(s[j], SafeLandingTime(r[j - 1].scheduledTime, r[j - 1].item, s[j].item, minSep));
    }
  }

  /** The list with `p` inserted at index `k`. */
  function InsertAt(s: seq<Place>, k: nat, p: Place): (r: seq<Place>)
    requires k <= |s|
    ensures |r| == |s| + 1 && r[k] == p
    ensures forall j | 0 <= j < k :: r[j] == s[j]
    ensures forall j | k < j < |r| :: r[j] == s[j - 1]
  {
    s[..k] + [p] + s[k..]
  }

  /** The time the moved aircraft gets: the requested time, or later if its new leader demands. */
  function MovedTime(rest: seq<Place>, k: nat, moved: Candidate, requested: int, minSep: nat): (r: int)
    requires k <= |rest|
    ensures r >= requested
    ensures k > 0 ==> r >= SafeLandingTime(rest[k - 1].scheduledTime, rest[k - 1].item, moved, minSep)
    ensures r == requested || (k > 0 && r == SafeLandingTime(rest[k - 1].scheduledTime, rest[k - 1].item, moved, minSep))
  {
    if k > 0 && requested < SafeLandingTime(rest[k - 1].scheduledTime, rest[k - 1].item, moved, minSep)
    then SafeLandingTime(rest[k - 1].scheduledTime, rest[k - 1].item, moved, minSep)
    else requested
  }

  /**
   * `suggestScheduledTime`: moves the aircraft to the requested time, marks it
   * manually assigned and pushes back the places after it where they would
   * land too close behind their predecessor.
   */
  method SuggestScheduledTime(places: seq<Place>, callsign: string, requested: int, minSep: nat)
    returns (r: seq<Place>)
    ensures IndexOfCallsign(places, callsign).None? ==> r == places
    ensures IndexOfCallsign(places, callsign).Some? ==>
      var oldIdx := IndexOfCallsign(places, callsign).value;
      var rest := RemoveAt(places, oldIdx);
      var k := InsertionIndex(rest, requested);
      // the moved place, manual, at or after the requested time and spaced behind its new leader
      var moved := places[oldIdx].(scheduledTime := MovedTime(rest, k, places[oldIdx].item, requested, minSep),
                                   isManuallyAssigned := true);
      var u := InsertAt(rest, k, moved);
      && |r| == |places|
      // the moved place and the places ahead of it are as inserted
      && r[..k + 1] == u[..k + 1]
      // the places behind it: conflicts resolved one by one, nobody moved earlier
      && (forall j | k < j < |r| ::
            r[j] == ResolveConflict(u[j], SafeLandingTime(r[j - 1].scheduledTime, r[j - 1].item, u[j].item, minSep)))
      && (forall j | k < j < |r| :: r[j].scheduledTime >= u[j].scheduledTime)
      && SpacedFrom(r, k, minSep)
  {
    var found := IndexOfCallsign(places, callsign);
    if found.None? {
      return places;
    }
    var oldIdx := found.value;
    var oldPlace := places[oldIdx];
    var rest := RemoveAt(places, oldIdx);
    var insertIdx := InsertionIndex(rest, requested);
    var newTime := requested;
    if insertIdx > 0 {
      var prev := rest[insertIdx - 1];
      var minTime := SafeLandingTime(prev.scheduledTime, prev.item, oldPlace.item, minSep);
      if newTime < minTime {
        newTime := minTime;
      }
    }
    var updated := InsertAt(rest, insertIdx, oldPlace.(scheduledTime := newTime, isManuallyAssigned := true));
    assert newTime == MovedTime(rest, insertIdx, oldPlace.item, requested, minSep);
    r := PushBackFollowers(updated, insertIdx, minSep);
  }

  /** The place the source calls the closest leader: the first of the latest places at or before `t`. */
  function ClosestLeader(s: seq<Place>, t: int): (r: Option<nat>)
    ensures r.None? <==> forall i | 0 <= i < |s| :: s[i].scheduledTime > t
    ensures r.Some? ==> r.value < |s| && s[r.value].scheduledTime <= t
    ensures r.Some? ==> forall i | 0 <= i < |s| && s[i].scheduledTime <= t :: s[i].scheduledTime <= s[r.value].scheduledTime
    // the first of equal latest places
    ensures r.Some? ==> forall i | 0 <= i < r.value && s[i].scheduledTime <= t :: s[i].scheduledTime < s[r.value].scheduledTime
  {
    Search.MaxByIndex(s, (p: Place) => p.scheduledTime <= t, (p: Place) => p.scheduledTime)
  }

  /**
   * `isTimeSlotAvailable`: whether the aircraft may land at `requested`, judged
   * against the closest place at or before that time only.
   */
  function IsTimeSlotAvailable(places: seq<Place>, callsign: string, requested: int, minSep: nat): (r: bool)
    // not sequenced: never available
    ensures IndexOfCallsign(places, callsign).None? ==> !r
    // nobody lands at or before the requested time: available
    ensures IndexOfCallsign(places, callsign).Some? && (forall i | 0 <= i < |places| :: places[i].scheduledTime > requested) ==> r
    // otherwise decided by the spacing behind the closest leader, which may be the aircraft itself
    ensures IndexOfCallsign(places, callsign).Some? && ClosestLeader(places, requested).Some? ==>
              var leader := places[ClosestLeader(places, requested).value];
              var me := places[IndexOfCallsign(places, callsign).value].item;
              (r <==> Id(leader) == callsign || requested >= SafeLandingTime(leader.scheduledTime, leader.item, me, minSep))
  {
    match IndexOfCallsign(places, callsign)
    case None => false
    case Some(me) =>
      match ClosestLeader(places, requested)
      case None => true
      case Some(l) =>
        Id(places[l]) == callsign
        || requested >= SafeLandingTime(places[l].scheduledTime, places[l].item, places[me].item, minSep)
  }

  // ---------------------------------------------------------------------
  // findBestInsertionTime

  /** The first of the latest places whose aircraft is inside the locked horizon (`maxByOrNull`). */
  function LastLocked(s: seq<Place>, now: int): (r: Option<nat>)
    ensures r.Some? ==> r.value < |s| && InLockedHorizon(s[r.value].item, now)
    ensures r.Some? ==> forall i | 0 <= i < |s| && InLockedHorizon(s[i].item, now) :: s[i].scheduledTime <= s[r.value].scheduledTime
    // the first of equal latest places
    ensures r.Some? ==> forall i | 0 <= i < r.value && InLockedHorizon(s[i].item, now) :: s[i].scheduledTime < s[r.value].scheduledTime
    ensures r.None? <==> forall i | 0 <= i < |s| :: !InLockedHorizon(s[i].item, now)
  {
    Search.MaxByIndex(s, (p: Place) => InLockedHorizon(p.item, now), (p: Place) => p.scheduledTime)
  }

  /** The first of the earliest places landing strictly after `t` (`minByOrNull`). */
  function NextFollower(s: seq<Place>, t: int): (r: Option<nat>)
    ensures r.Some? ==> r.value < |s| && s[r.value].scheduledTime > t
    ensures r.Some? ==> forall i | 0 <= i < |s| && s[i].scheduledTime > t :: s[r.value].scheduledTime <= s[i].scheduledTime
    // the first of equal earliest places
    ensures r.Some? ==> forall i | 0 <= i < r.value && s[i].scheduledTime > t :: s[r.value].scheduledTime < s[i].scheduledTime
    ensures r.None? <==> forall i | 0 <= i < |s| :: s[i].scheduledTime <= t
  {
    Search.MinByIndex(s, (p: Place) => p.scheduledTime > t, (p: Place) => p.scheduledTime)
  }

  /** First step: a new aircraft may not land ahead of the last locked aircraft. */
  function AfterLocked(s: seq<Place>, c: Candidate, t: int, minSep: nat, now: int): (r: int)
    ensures r >= t
    ensures LastLocked(s, now).Some? && t <= s[LastLocked(s, now).value].scheduledTime ==>
              var l := s[LastLocked(s, now).value];
              r == SafeLandingTime(l.scheduledTime, l.item, c, minSep)
    ensures LastLocked(s, now).None? || t > s[LastLocked(s, now).value].scheduledTime ==> r == t
  {
    match LastLocked(s, now)
    case Some(l) =>
      if t <= s[l].scheduledTime then
        var safe := SafeLandingTime(s[l].scheduledTime, s[l].item, c, minSep);
        if safe >= t then safe else t
      else t
    case None => t
  }

  /** Second step: keep the spacing behind the closest leader at or before the time. */
  function AfterLeader(s: seq<Place>, c: Candidate, t: int, minSep: nat): (r: int)
    ensures r >= t
    ensures ClosestLeader(s, t).Some? ==>
              var l := s[ClosestLeader(s, t).value];
              r >= SafeLandingTime(l.scheduledTime, l.item, c, minSep)
              && (r == t || r == SafeLandingTime(l.scheduledTime, l.item, c, minSep))
    ensures ClosestLeader(s, t).None? ==> r == t
  {
    match ClosestLeader(s, t)
    case Some(l) =>
      var required := SafeLandingTime(s[l].scheduledTime, s[l].item, c, minSep);
      if t < required then required else t
    case None => t
  }

  /**
   * Third step: when the next follower would land too close behind, and it is
   * not locked, land exactly one spacing ahead of it instead.
   */
  function AfterFollower(s: seq<Place>, c: Candidate, t: int, minSep: nat, now: int): (r: int)
    ensures r <= t
    ensures NextFollower(s, t).Some? ==>
              var f := s[NextFollower(s, t).value];
              if f.scheduledTime < SafeLandingTime(t, c, f.item, minSep) && !InLockedHorizon(f.item, now)
              then SafeLandingTime(r, c, f.item, minSep) == f.scheduledTime
              else r == t
    ensures NextFollower(s, t).None? ==> r == t
  {
    match NextFollower(s, t)
    case Some(fi) =>
      var f := s[fi];
      if f.scheduledTime < SafeLandingTime(t, c, f.item, minSep) && !InLockedHorizon(f.item, now) then
        f.scheduledTime - NmToSeconds(EffectiveSpacing(c, f.item, minSep), f.item.landingIas)
      else t
    case None => t
  }

  /** `findBestInsertionTime` as a function of its inputs: the three steps in turn. */
  function BestInsertionTime(s: seq<Place>, c: Candidate, minSep: nat, now: int): int
  {
    var t1 := AfterLocked(s, c, c.preferredTime, minSep, now);
    var t2 := AfterLeader(s, c, t1, minSep);
    AfterFollower(s, c, t2, minSep, now)
  }

  /** An empty sequence, or one without any conflict, leaves the preferred time as it is. */
  lemma {:induction false} BestInsertionTimeWithoutConflict(s: seq<Place>, c: Candidate, minSep: nat, now: int)
    requires forall i | 0 <= i < |s| :: !InLockedHorizon(s[i].item, now) || s[i].scheduledTime < c.preferredTime
    requires forall i | 0 <= i < |s| && s[i].scheduledTime <= c.preferredTime ::
               c.preferredTime >= SafeLandingTime(s[i].scheduledTime, s[i].item, c, minSep)
    requires forall i | 0 <= i < |s| && s[i].scheduledTime > c.preferredTime ::
               s[i].scheduledTime >= SafeLandingTime(c.preferredTime, c, s[i].item, minSep)
    ensures BestInsertionTime(s, c, minSep, now) == c.preferredTime
  {
    var t1 := AfterLocked(s, c, c.preferredTime, minSep, now);
    assert t1 == c.preferredTime;
  }

  /** `findBestInsertionTime`, which reassigns its running best time step by step. */
  method FindBestInsertionTime(existing: seq<Place>, c: Candidate, minSep: nat, now: int) returns (bestTime: int)
    ensures bestTime == BestInsertionTime(existing, c, minSep, now)
  {
    bestTime := PushPastLocked(existing, c, minSep, now);
    bestTime := PushPastLeader(existing, c, bestTime, minSep);
    bestTime := PullBeforeFollower(existing, c, bestTime, minSep, now);
  }

  /** The first step: no earlier than the safe time behind the last locked place, if the preferred time is not later. */
  method PushPastLocked(existing: seq<Place>, c: Candidate, minSep: nat, now: int) returns (bestTime: int)
    ensures bestTime == AfterLocked(existing, c, c.preferredTime, minSep, now)
  {
    bestTime := c.preferredTime;
    var lastLocked := LastLocked(existing, now);
    if lastLocked.Some? && bestTime <= existing[lastLocked.value].scheduledTime {
      var l := existing[lastLocked.value];
      var minTimeAfterLocked := SafeLandingTime(l.scheduledTime, l.item, c, minSep);
      if minTimeAfterLocked > bestTime {
        bestTime := minTimeAfterLocked;
      }
    }
  }

  /** The second step: no earlier than the safe time behind the closest leader. */
  method PushPastLeader(existing: seq<Place>, c: Candidate, t: int, minSep: nat) returns (bestTime: int)
    ensures bestTime == AfterLeader(existing, c, t, minSep)
  {
    bestTime := t;
    var leader := ClosestLeader(existing, bestTime);
    if leader.Some? {
      var l := existing[leader.value];
      var requiredTime := SafeLandingTime(l.scheduledTime, l.item, c, minSep);
      if bestTime < requiredTime {
        bestTime := requiredTime;
      }
    }
  }

  /** The third step: moved in front of a follower that is unlocked and too close. */
  method PullBeforeFollower(existing: seq<Place>, c: Candidate, t: int, minSep: nat, now: int) returns (bestTime: int)
    ensures bestTime == AfterFollower(existing, c, t, minSep, now)
  {
    bestTime := t;
    var follower := NextFollower(existing, bestTime);
    if follower.Some? {
      var f := existing[follower.value];
      var requiredFollowerTime := SafeLandingTime(bestTime, c, f.item, minSep);
      if f.scheduledTime < requiredFollowerTime && !InLockedHorizon(f.item, now) {
        var effectiveSpacing := EffectiveSpacing(c, f.item, minSep);
        bestTime := f.scheduledTime - NmToSeconds(effectiveSpacing, f.item.landingIas);
      }
    }
  }

  // ---------------------------------------------------------------------
  // updateSequence

  function CandidateIds(cs: seq<Candidate>): set<string>
  {
    set c | c in cs :: c.callsign
  }

  function ItemOf(p: Place): Candidate { p.item }

  /** The multiset of aircraft held by a list of places. */
  function Items(ps: seq<Place>): multiset<Candidate>
  {
    multiset(Sorting.Map(ps, ItemOf))
  }

  lemma {:induction false} ItemsAppend(a: seq<Place>, b: seq<Place>)
    ensures Items(a + b) == Items(a) + Items(b)
  {
    assert Sorting.Map(a + b, ItemOf) == Sorting.Map(a, ItemOf) + Sorting.Map(b, ItemOf);
  }

  /** The entry `associateBy` keeps for a callsign: the last candidate carrying it. */
  function LatestCandidate(cs: seq<Candidate>, id: string): (r: Option<Candidate>)
    ensures r.Some? ==> r.value in cs && r.value.callsign == id
    ensures r.None? <==> id !in CandidateIds(cs)
  {
    match Search.LastIndex(cs, (c: Candidate) => c.callsign == id)
    case None => None
    case Some(i) => Some(cs[i])
  }

  /** The existing place `associateBy` keeps for a callsign: the last one carrying it. */
  function ExistingPlace(places: seq<Place>, id: string): (r: Option<Place>)
    ensures r.Some? ==> r.value in places && Id(r.value) == id
    ensures r.None? <==> forall i | 0 <= i < |places| :: Id(places[i]) != id
  {
    match Search.LastIndex(places, (p: Place) => p.item.callsign == id)
    case None => None
    case Some(i) => Some(places[i])
  }

  /** Original position of a callsign in the sequence (last occurrence), or Int.MAX_VALUE. */
  function OriginalOrder(places: seq<Place>, id: string): (r: int)
    ensures ExistingPlace(places, id).None? ==> r == IntMax
    ensures ExistingPlace(places, id).Some? ==> 0 <= r < |places| && Id(places[r]) == id
  {
    match Search.LastIndex(places, (p: Place) => p.item.callsign == id)
    case None => IntMax
    case Some(i) => i
  }

  predicate WasManual(places: seq<Place>, id: string)
  {
    ExistingPlace(places, id).Some? && ExistingPlace(places, id).value.isManuallyAssigned
  }

  /**
   * The aircraft considered: those already sequenced, refreshed with their
   * latest candidate data, then the new candidates inside the sequencing
   * horizon; of these only the ones still among the candidates and inside the
   * horizon are kept.
   */
  function PlaceIds(places: seq<Place>): set<string>
  {
    set p | p in places :: Id(p)
  }

  function ActiveCandidates(places: seq<Place>, candidates: seq<Candidate>, now: int): (r: seq<Candidate>)
    ensures forall c | c in r :: c.callsign in CandidateIds(candidates) && InSequencingHorizon(c, now)
    // a sequenced aircraft stays, with its latest data, while that data is inside the horizon
    ensures forall p | p in places && LatestCandidate(candidates, Id(p)).Some?
                       && InSequencingHorizon(LatestCandidate(candidates, Id(p)).value, now) ::
              LatestCandidate(candidates, Id(p)).value in r
    // a new aircraft joins once it is inside the horizon
    ensures forall c | c in candidates && c.callsign !in PlaceIds(places) && InSequencingHorizon(c, now) :: c in r
  {
    var refreshed := seq(|places|, i requires 0 <= i < |places| =>
                           LatestCandidate(candidates, Id(places[i])).GetOr(places[i].item));
    var existingIds := PlaceIds(places);
    var newOnes := Search.Filter(candidates, (c: Candidate) => c.callsign !in existingIds && InSequencingHorizon(c, now));
    var ids := CandidateIds(candidates);
    var r := Search.Filter(refreshed + newOnes, (c: Candidate) => c.callsign in ids && InSequencingHorizon(c, now));
    assert forall p | p in places && LatestCandidate(candidates, Id(p)).Some?
                      && InSequencingHorizon(LatestCandidate(candidates, Id(p)).value, now) ::
             LatestCandidate(candidates, Id(p)).value in r by {
      forall p | p in places && LatestCandidate(candidates, Id(p)).Some?
                 && InSequencingHorizon(LatestCandidate(candidates, Id(p)).value, now)
        ensures LatestCandidate(candidates, Id(p)).value in r
      {
        var i :| 0 <= i < |places| && places[i] == p;
        assert refreshed[i] == LatestCandidate(candidates, Id(p)).value;
        assert refreshed[i] in refreshed + newOnes;
      }
    }
    assert forall c | c in candidates && c.callsign !in existingIds && InSequencingHorizon(c, now) :: c in r by {
      forall c | c in candidates && c.callsign !in existingIds && InSequencingHorizon(c, now)
        ensures c in r
      {
        assert c in newOnes;
        assert c in refreshed + newOnes;
        assert c.callsign in ids;
      }
    }
    r
  }

  /** Manually assigned aircraft keep their stored time and stay manual. */
  function ManualPlaces(ms: seq<Candidate>, places: seq<Place>): (r: seq<Place>)
    requires forall c | c in ms :: WasManual(places, c.callsign)
    ensures |r| == |ms|
    ensures forall i | 0 <= i < |r| ::
              r[i].item == ms[i] && r[i].isManuallyAssigned && ExistingPlace(places, ms[i].callsign).Some?
              && r[i].scheduledTime == ExistingPlace(places, ms[i].callsign).value.scheduledTime
    ensures Sorting.Map(r, ItemOf) == ms
  {
    assert forall i | 0 <= i < |ms| :: WasManual(places, ms[i].callsign) by {
      forall i | 0 <= i < |ms| ensures WasManual(places, ms[i].callsign) {
        assert ms[i] in ms;
      }
    }
    var r := seq(|ms|, i requires 0 <= i < |ms| =>
                   assert ms[i] in ms && WasManual(places, ms[i].callsign);
                   Place(ms[i], ExistingPlace(places, ms[i].callsign).value.scheduledTime, true));
    assert Sorting.Map(r, ItemOf) == ms;
    r
  }

  /**
   * The time of an aircraft that kept its automatic slot: the latest of its
   * preferred time and the safe times behind every manual place that
   * originally preceded it.
   */
  function AutoTime(best: int, manuals: seq<Place>, c: Candidate, places: seq<Place>, minSep: nat): (r: int)
    ensures r >= best
    ensures forall m | m in manuals && OriginalOrder(places, Id(m)) < OriginalOrder(places, c.callsign) ::
              r >= SafeLandingTime(m.scheduledTime, m.item, c, minSep)
    ensures r == best
            || exists m | m in manuals && OriginalOrder(places, Id(m)) < OriginalOrder(places, c.callsign) ::
                 r == SafeLandingTime(m.scheduledTime, m.item, c, minSep)
    decreases |manuals|
  {
    if manuals == [] then best
    else
      var m := manuals[0];
      var next :=
        if OriginalOrder(places, Id(m)) < OriginalOrder(places, c.callsign)
           && SafeLandingTime(m.scheduledTime, m.item, c, minSep) > best
        then SafeLandingTime(m.scheduledTime, m.item, c, minSep)
        else best;
      var r := AutoTime(next, manuals[1..], c, places, minSep);
      assert forall x | x in manuals[1..] :: x in manuals;
      r
  }

  /** Aircraft that keep their automatic slot, each at its `AutoTime`. */
  function AutoPlaces(autos: seq<Candidate>, manuals: seq<Place>, places: seq<Place>, minSep: nat): (r: seq<Place>)
    ensures |r| == |autos|
    ensures forall i | 0 <= i < |r| ::
              r[i].item == autos[i] && !r[i].isManuallyAssigned
              && r[i].scheduledTime == AutoTime(autos[i].preferredTime, manuals, autos[i], places, minSep)
    ensures Sorting.Map(r, ItemOf) == autos
  {
    var r := seq(|autos|, i requires 0 <= i < |autos| =>
                   Place(autos[i], AutoTime(autos[i].preferredTime, manuals, autos[i], places, minSep), false));
    assert Sorting.Map(r, ItemOf) == autos;
    r
  }

  /** `findBestInsertionTime` as a function value, for the fold below. */
  function BestTimeOf(minSep: nat, now: int): (seq<Place>, Candidate) -> int
  {
    (s: seq<Place>, c: Candidate) => BestInsertionTime(s, c, minSep, now)
  }

  /** New aircraft are placed one at a time, each at the time `bestTime` gives among those placed so far. */
  function PlaceNew(acc: seq<Place>, news: seq<Candidate>, bestTime: (seq<Place>, Candidate) -> int): seq<Place>
    decreases news
  {
    if news == [] then acc
    else PlaceNew(acc + [Place(news[0], bestTime(acc, news[0]), false)], news[1..], bestTime)
  }

  /** Placing the new aircraft appends exactly them, in the given order, after the places already there. */
  lemma {:induction false} PlaceNewAppends(acc: seq<Place>, news: seq<Candidate>, bestTime: (seq<Place>, Candidate) -> int)
    ensures Sorting.Map(PlaceNew(acc, news, bestTime), ItemOf) == Sorting.Map(acc, ItemOf) + news
    decreases news
  {
    if news != [] {
      var p := Place(news[0], bestTime(acc, news[0]), false);
      PlaceNewAppends(acc + [p], news[1..], bestTime);
      assert Sorting.Map(acc + [p], ItemOf) == Sorting.Map(acc, ItemOf) + [news[0]];
      assert news == [news[0]] + news[1..];
    }
  }

  /** The final ordering: by scheduled time, ties by original position (new aircraft last). */
  function SequenceOrder(places: seq<Place>): (Place, Place) -> bool
  {
    (a: Place, b: Place) =>
      a.scheduledTime < b.scheduledTime
      || (a.scheduledTime == b.scheduledTime && OriginalOrder(places, Id(a)) <= OriginalOrder(places, Id(b)))
  }

  /** Active aircraft that were manually assigned. */
  function ManualCandidates(places: seq<Place>, candidates: seq<Candidate>, now: int): seq<Candidate>
  {
    Search.Filter(ActiveCandidates(places, candidates, now), (c: Candidate) => WasManual(places, c.callsign))
  }

  /** Active aircraft that are scheduled automatically. */
  function AutoCandidates(places: seq<Place>, candidates: seq<Candidate>, now: int): seq<Candidate>
  {
    Search.Filter(ActiveCandidates(places, candidates, now), (c: Candidate) => !WasManual(places, c.callsign))
  }

  /** Automatic aircraft that were already sequenced, in their original order. */
  function KeptAutoCandidates(places: seq<Place>, candidates: seq<Candidate>, now: int): seq<Candidate>
  {
    Sorting.Sort(Search.Filter(AutoCandidates(places, candidates, now), (c: Candidate) => ExistingPlace(places, c.callsign).Some?),
                 Sorting.ByKey((c: Candidate) => OriginalOrder(places, c.callsign)))
  }

  /** Automatic aircraft new to the sequence, by preferred time. */
  function NewAutoCandidates(places: seq<Place>, candidates: seq<Candidate>, now: int): seq<Candidate>
  {
    Sorting.Sort(Search.Filter(AutoCandidates(places, candidates, now), (c: Candidate) => !ExistingPlace(places, c.callsign).Some?),
                 Sorting.ByKey((c: Candidate) => c.preferredTime))
  }

  /** The manual places followed by the places of the kept automatic aircraft. */
  function KeptPlaces(places: seq<Place>, candidates: seq<Candidate>, minSep: nat, now: int): (r: seq<Place>)
    ensures Items(r) + multiset(NewAutoCandidates(places, candidates, now)) == multiset(ActiveCandidates(places, candidates, now))
  {
    var active := ActiveCandidates(places, candidates, now);
    var auto := AutoCandidates(places, candidates, now);
    var manualPlaces := ManualPlaces(ManualCandidates(places, candidates, now), places);
    var r := manualPlaces + AutoPlaces(KeptAutoCandidates(places, candidates, now), manualPlaces, places, minSep);
    Search.FilterSplit(active, (c: Candidate) => WasManual(places, c.callsign), (c: Candidate) => !WasManual(places, c.callsign));
    Search.FilterSplit(auto, (c: Candidate) => ExistingPlace(places, c.callsign).Some?,
                       (c: Candidate) => !ExistingPlace(places, c.callsign).Some?);
    ItemsAppend(manualPlaces, AutoPlaces(KeptAutoCandidates(places, candidates, now), manualPlaces, places, minSep));
    r
  }

  /**
   * The places before the final spacing pass: manual places at their stored
   * time, kept automatic places at their `AutoTime` in original order, then
   * new aircraft by preferred time at their best insertion time; sorted by
   * `SequenceOrder`.
   */
  function PlacesBeforeFinalPass(places: seq<Place>, candidates: seq<Candidate>, minSep: nat, now: int): (r: seq<Place>)
    ensures Items(r) == multiset(ActiveCandidates(places, candidates, now))
  {
    var kept := KeptPlaces(places, candidates, minSep, now);
    var news := NewAutoCandidates(places, candidates, now);
    var all := PlaceNew(kept, news, BestTimeOf(minSep, now));
    PlaceNewAppends(kept, news, BestTimeOf(minSep, now));
    var r := Sorting.Sort(all, SequenceOrder(places));
    Sorting.SortMap(all, SequenceOrder(places), ItemOf);
    r
  }

  /** Changing only the times of the places does not change the aircraft they hold. */
  lemma {:induction false} ItemsPointwise(a: seq<Place>, b: seq<Place>)
    requires |a| == |b|
    requires forall i | 0 <= i < |a| :: a[i].item == b[i].item
    ensures Items(a) == Items(b)
  {
    assert Sorting.Map(a, ItemOf) == Sorting.Map(b, ItemOf);
  }

  /** The loop of `updateSequence` that places the new aircraft one by one. */
  method PlaceNewAircraft(acc: seq<Place>, news: seq<Candidate>, minSep: nat, now: int) returns (all: seq<Place>)
    ensures all == PlaceNew(acc, news, BestTimeOf(minSep, now))
  {
    all := acc;
    var i := 0;
    while i < |news|
      invariant 0 <= i <= |news|
      invariant PlaceNew(all, news[i..], BestTimeOf(minSep, now)) == PlaceNew(acc, news, BestTimeOf(minSep, now))
    {
      var bestTime := FindBestInsertionTime(all, news[i], minSep, now);
      assert news[i..][1..] == news[i + 1..];
      all := all + [Place(news[i], bestTime, false)];
      i := i + 1;
    }
    assert news[i..] == [];
  }

  /** The final pass of `updateSequence` over the sorted places. */
  method FinalPass(sorted: seq<Place>, minSep: nat) returns (r: seq<Place>)
    ensures Items(r) == Items(sorted)
    ensures |r| == |sorted|
    ensures |r| > 0 ==> r[0] == sorted[0]
    ensures forall j | 0 < j < |r| ::
              r[j] == ResolveConflict(sorted[j], SafeLandingTime(r[j - 1].scheduledTime, r[j - 1].item, sorted[j].item, minSep))
    ensures SpacedFrom(r, 0, minSep)
    ensures forall j | 0 < j < |r| :: r[j - 1].scheduledTime <= r[j].scheduledTime
  {
    if sorted == [] {
      return [];
    }
    r := PushBackFollowers(sorted, 0, minSep);
    assert r[0] == r[..1][0];
    SpacedIsOrdered(r, 0, minSep);
    forall j | 0 <= j < |r|
      ensures r[j].item == sorted[j].item
    {
      if j > 0 {
        var _ := ResolveConflict(sorted[j], SafeLandingTime(r[j - 1].scheduledTime, r[j - 1].item, sorted[j].item, minSep));
      }
    }
    ItemsPointwise(sorted, r);
  }

  /** The steps of `updateSequence` up to the final pass. */
  method PlacesBeforeFinalPassImpl(places: seq<Place>, candidates: seq<Candidate>, minSep: nat, now: int)
    returns (sorted: seq<Place>)
    ensures sorted == PlacesBeforeFinalPass(places, candidates, minSep, now)
  {
    var all := PlaceNewAircraft(KeptPlaces(places, candidates, minSep, now), NewAutoCandidates(places, candidates, now), minSep, now);
    sorted := Sorting.Sort(all, SequenceOrder(places));
  }

  /**
   * `updateSequence`: rebuilds the sequence from the current places and the
   * latest candidates, then runs the spacing pass over the sorted result.
   */
  method UpdateSequence(places: seq<Place>, candidates: seq<Candidate>, minSep: nat, now: int) returns (r: seq<Place>)
    // exactly the active aircraft: still candidates and inside the sequencing horizon
    ensures Items(r) == multiset(ActiveCandidates(places, candidates, now))
    ensures forall i | 0 <= i < |r| :: Id(r[i]) in CandidateIds(candidates) && InSequencingHorizon(r[i].item, now)
    // the final pass over the sorted places
    ensures var before := PlacesBeforeFinalPass(places, candidates, minSep, now);
            && |r| == |before|
            && (|r| > 0 ==> r[0] == before[0])
            && (forall j | 0 < j < |r| ::
                  r[j] == ResolveConflict(before[j], SafeLandingTime(r[j - 1].scheduledTime, r[j - 1].item, before[j].item, minSep)))
    // ordered by time and spaced
    ensures SpacedFrom(r, 0, minSep)
    ensures forall j | 0 < j < |r| :: r[j - 1].scheduledTime <= r[j].scheduledTime
  {
    var sorted := PlacesBeforeFinalPassImpl(places, candidates, minSep, now);
    r := FinalPass(sorted, minSep);
    ActiveItems(places, candidates, now, r);
  }

  /** Every place holding an active aircraft is still a candidate and inside the sequencing horizon. */
  lemma {:induction false} ActiveItems(places: seq<Place>, candidates: seq<Candidate>, now: int, r: seq<Place>)
    requires Items(r) == multiset(ActiveCandidates(places, candidates, now))
    ensures forall i | 0 <= i < |r| :: Id(r[i]) in CandidateIds(candidates) && InSequencingHorizon(r[i].item, now)
  {
    forall i | 0 <= i < |r|
      ensures Id(r[i]) in CandidateIds(candidates) && InSequencingHorizon(r[i].item, now)
    {
      assert Sorting.Map(r, ItemOf)[i] == r[i].item;
      assert r[i].item in Items(r);
    }
  }
}
