/**
 * The older arrival sequencer (object `AmanDmanSequenceService` in the
 * client's service package). It has no manual slots and no runways: new
 * aircraft inside the active advisory horizon (AAH) are inserted one by one
 * at a time found by a bounded search, and existing slots are never moved by
 * `updateSequence`.
 *
 * Times are whole seconds; `now` stands for the wall clock the source reads.
 * Spacing distances are tenths of a nautical mile.
 */
module LegacySequenceService {
  import opened Wrappers
  import opened Spacing
  import Search
  import Sorting

  /** New aircraft are sequenced once their preferred time is less than 10 min ahead. */
  const AahThreshold: int := 10 * 60
  /** The bound on the rounds of `findBestInsertionTime`. */
  const MaxIterations: nat := 10

  datatype Candidate = Candidate(callsign: string, preferredTime: int, landingIas: Knots, wakeCategory: char)

  datatype Place = Place(item: Candidate, scheduledTime: int)

  function Id(p: Place): string { p.item.callsign }

  function TimeOf(p: Place): int { p.scheduledTime }

  function ItemOf(p: Place): Candidate { p.item }

  /** The aircraft of a list of places, counted with repetition. */
  function Items(ps: seq<Place>): multiset<Candidate>
  {
    multiset(Sorting.Map(ps, ItemOf))
  }

  predicate InAah(c: Candidate, now: int)
  {
    c.preferredTime - now < AahThreshold
  }

  function InAahAt(now: int): Candidate -> bool
  {
    c => InAah(c, now)
  }

  predicate SortedByTime(s: seq<Place>)
  {
    forall i, j | 0 <= i < j < |s| :: s[i].scheduledTime <= s[j].scheduledTime
  }

  /** The larger of the wake spacing (3.0 NM by default) and the minimum separation. */
  function EffectiveSpacing(leader: Candidate, follower: Candidate, minSep: nat): (r: nat)
    ensures r >= minSep && r >= WakeSpacing(leader.wakeCategory, follower.wakeCategory)
    ensures r == minSep || r == WakeSpacing(leader.wakeCategory, follower.wakeCategory)
  {
    var wake := WakeSpacing(leader.wakeCategory, follower.wakeCategory);
    if wake >= minSep then wake else minSep
  }

  /** Earliest time the follower may land behind a leader landing at `ref`. */
  function SafeLandingTime(ref: int, leader: Candidate, follower: Candidate, minSep: nat): (r: int)
    ensures r >= ref
  {
    ref + NmToSeconds(EffectiveSpacing(leader, follower, minSep), follower.landingIas)
  }

  /**
   * The spacing rule: at least the wake spacing (3.0 NM when the table has no
   * entry) and at least the minimum separation, flown at the follower's speed.
   */
  lemma {:induction false} SpacingRule(ref: int, leader: Candidate, follower: Candidate, minSep: nat)
    ensures SafeLandingTime(ref, leader, follower, minSep) >= ref + NmToSeconds(minSep, follower.landingIas)
    ensures SafeLandingTime(ref, leader, follower, minSep)
            >= ref + NmToSeconds(WakeSpacing(leader.wakeCategory, follower.wakeCategory), follower.landingIas)
    ensures SafeLandingTime(ref, leader, follower, minSep) >= ref + NmToSeconds(DefaultSpacingTenths, follower.landingIas)
  {
    var e := EffectiveSpacing(leader, follower, minSep);
    NmToSecondsMonotone(minSep, e, follower.landingIas);
    NmToSecondsMonotone(WakeSpacing(leader.wakeCategory, follower.wakeCategory), e, follower.landingIas);
    NmToSecondsMonotone(DefaultSpacingTenths, e, follower.landingIas);
  }

  /** `reSchedule`: the sequence is cleared. */
  function ReSchedule(places: seq<Place>): (r: seq<Place>)
    ensures r == []
  {
    []
  }

  /** `removeFromSequence`: keeps the places whose callsign is not among `callsigns`. */
  function RemoveFromSequence(places: seq<Place>, callsigns: seq<string>): (r: seq<Place>)
    ensures forall p :: p in r <==> p in places && Id(p) !in callsigns
    ensures |r| <= |places|
  {
    Search.Filter(places, (p: Place) => p.item.callsign !in callsigns)
  }

  /** Removal works place by place, so the kept places stay in their original order. */
  lemma {:induction false} RemoveFromSequenceKeepsOrder(a: seq<Place>, b: seq<Place>, callsigns: seq<string>)
    ensures RemoveFromSequence(a + b, callsigns) == RemoveFromSequence(a, callsigns) + RemoveFromSequence(b, callsigns)
    ensures forall p :: RemoveFromSequence([p], callsigns) == if Id(p) in callsigns then [] else [p]
  {
    Search.FilterAppend(a, b, (p: Place) => p.item.callsign !in callsigns);
  }

  function IndexOfCallsign(s: seq<Place>, callsign: string): (r: Option<nat>)
    ensures r.None? <==> forall i | 0 <= i < |s| :: Id(s[i]) != callsign
    ensures r.Some? ==> r.value < |s| && Id(s[r.value]) == callsign
    ensures r.Some? ==> forall i | 0 <= i < r.value :: Id(s[i]) != callsign
  {
    Search.FirstIndex(s, (p: Place) => p.item.callsign == callsign)
  }

  /** Before the first place landing after `t`, or at the end. */
  function InsertionIndex(s: seq<Place>, t: int): (r: nat)
    ensures r <= |s|
    ensures forall j | 0 <= j < r :: s[j].scheduledTime <= t
    ensures r < |s| ==> s[r].scheduledTime > t
  {
    match Search.FirstIndex(s, (p: Place) => p.scheduledTime > t)
    case None => |s|
    case Some(i) => i
  }

  function RemoveAt(s: seq<Place>, k: nat): (r: seq<Place>)
    requires k < |s|
    ensures |r| == |s| - 1
    ensures forall j | 0 <= j < k :: r[j] == s[j]
    ensures forall j | k <= j < |r| :: r[j] == s[j + 1]
  {
    s[..k] + s[k + 1..]
  }

  function InsertAt(s: seq<Place>, k: nat, p: Place): (r: seq<Place>)
    requires k <= |s|
    ensures |r| == |s| + 1 && r[k] == p
    ensures forall j | 0 <= j < k :: r[j] == s[j]
    ensures forall j | k < j < |r| :: r[j] == s[j - 1]
    ensures multiset(r) == multiset(s) + multiset{p}
  {
    assert s == s[..k] + s[k..];
    s[..k] + [p] + s[k..]
  }

  /** Inserting a place before the first later one keeps a time-ordered list ordered. */
  lemma {:induction false} InsertionKeepsSorted(s: seq<Place>, p: Place)
    requires SortedByTime(s)
    ensures SortedByTime(InsertAt(s, InsertionIndex(s, p.scheduledTime), p))
  {
  }

  /** Every place after `from` lands no earlier than the safe time behind its predecessor. */
  ghost predicate SpacedFrom(s: seq<Place>, from: nat, minSep: nat)
  {
    forall j | from < j < |s| ::
      s[j].scheduledTime >= SafeLandingTime(s[j - 1].scheduledTime, s[j - 1].item, s[j].item, minSep)
  }

  /** The requested time, or the safe time behind the new leader when that is later. */
  function MovedTime(rest: seq<Place>, k: nat, moved: Candidate, requested: int, minSep: nat): (r: int)
    requires k <= |rest|
    ensures r >= requested
    ensures k > 0 ==> r >= SafeLandingTime(rest[k - 1].scheduledTime, rest[k - 1].item, moved, minSep)
    ensures r == requested || (k > 0 && r == SafeLandingTime(rest[k - 1].scheduledTime, rest[k - 1].item, moved, minSep))
  {
    if k > 0 && requested < SafeLandingTime(rest[k - 1].scheduledTime, rest[k - 1].item, moved, minSep)
    then SafeLandingTime(rest[k - 1].scheduledTime, rest[k - 1].item, moved, minSep)
    else requested
  }

  /**
   * `suggestScheduledTime`: moves the aircraft to the requested time (or the
   * safe time behind its new leader) and then walks the places behind it,
   * giving each the later of its own time and the safe time behind its
   * predecessor. Unlike the current sequencer, a follower is always delayed
   * to the safe time, preferred time or not.
   */
  method SuggestScheduledTime(places: seq<Place>, callsign: string, requested: int, minSep: nat)
    returns (r: seq<Place>)
    ensures IndexOfCallsign(places, callsign).None? ==> r == places
    ensures IndexOfCallsign(places, callsign).Some? ==>
      var oldIdx := IndexOfCallsign(places, callsign).value;
      var rest := RemoveAt(places, oldIdx);
      var k := InsertionIndex(rest, requested);
      var u := InsertAt(rest, k, places[oldIdx].(scheduledTime := MovedTime(rest, k, places[oldIdx].item, requested, minSep)));
      && |r| == |places|
      && r[..k + 1] == u[..k + 1]
      // followers keep their aircraft, are never moved earlier, and land at
      // their own time unless that is too close behind their predecessor
      && (forall j | k < j < |r| :: r[j] == Delay(r[j - 1], u[j], minSep))
      && SpacedFrom(r, k, minSep)
  {
    var found := IndexOfCallsign(places, callsign);
    if found.None? {
      return places;
    }
    var oldIdx := found.value;
    var oldPlace := places[oldIdx];
    var rest := RemoveAt(places, oldIdx);
    var insertIdx := InsertionIndex(rest, requested);
    var newTime := requested;
    if insertIdx > 0 {
      var prev := rest[insertIdx - 1];
      var minTime := SafeLandingTime(prev.scheduledTime, prev.item, oldPlace.item, minSep);
      if newTime < minTime {
        newTime := minTime;
      }
    }
    assert newTime == MovedTime(rest, insertIdx, oldPlace.item, requested, minSep);
    r := DelayFollowers(InsertAt(rest, insertIdx, oldPlace.(scheduledTime := newTime)), insertIdx, minSep);
  }

  /** A follower behind `leader` lands at the later of its own time and the safe time. */
  function Delay(leader: Place, follower: Place, minSep: nat): (r: Place)
    ensures r.item == follower.item
    ensures r.scheduledTime >= follower.scheduledTime
    ensures r.scheduledTime >= SafeLandingTime(leader.scheduledTime, leader.item, follower.item, minSep)
    ensures r.scheduledTime == follower.scheduledTime
            || r.scheduledTime == SafeLandingTime(leader.scheduledTime, leader.item, follower.item, minSep)
  {
    var minTime := SafeLandingTime(leader.scheduledTime, leader.item, follower.item, minSep);
    follower.(scheduledTime := if minTime >= follower.scheduledTime then minTime else follower.scheduledTime)
  }

  /**
   * The loop of `suggestScheduledTime` over the places after index `from`:
   * each is delayed behind its (already adjusted) predecessor.
   */
  method DelayFollowers(u: seq<Place>, from: nat, minSep: nat) returns (r: seq<Place>)
    requires from < |u|
    ensures |r| == |u|
    ensures r[..from + 1] == u[..from + 1]
    ensures forall j | from < j < |r| :: r[j] == Delay(r[j - 1], u[j], minSep)
    ensures SpacedFrom(r, from, minSep)
  {
    r := u;
    var i := from + 1;
    while i < |r|
      invariant from + 1 <= i <= |r| == |u|
      invariant r[..from + 1] == u[..from + 1]
      invariant forall j | from < j < i :: r[j] == Delay(r[j - 1], u[j], minSep)
      invariant forall j | i <= j < |r| :: r[j] == u[j]
    {
      var leader := r[i - 1];
      var follower := r[i];
      var minTime := SafeLandingTime(leader.scheduledTime, leader.item, follower.item, minSep);
      var nextTime := if minTime >= follower.scheduledTime then minTime else follower.scheduledTime;
      r := r[i := follower.(scheduledTime := nextTime)];
      i := i + 1;
    }
    DelayedSpaced(r, u, from, minSep);
  }

  /** Places each delayed behind its predecessor are spaced. */
  lemma {:induction false} DelayedSpaced(r: seq<Place>, u: seq<Place>, from: nat, minSep: nat)
    requires |r| == |u|
    requires forall j | from < j < |r| :: r[j] == Delay(r[j - 1], u[j], minSep)
    ensures SpacedFrom(r, from, minSep)
  {
    forall j | from < j < |r|
      ensures r[j].scheduledTime >= SafeLandingTime(r[j - 1].scheduledTime, r[j - 1].item, r[j].item, minSep)
    {
      assert r[j] == Delay(r[j - 1], u[j], minSep);
    }
  }

  /** The first of the latest places at or before `t` (`filter { .. }.maxByOrNull`). */
  function ClosestLeader(s: seq<Place>, t: int): (r: Option<nat>)
    ensures r.None? <==> forall i | 0 <= i < |s| :: s[i].scheduledTime > t
    ensures r.Some? ==> r.value < |s| && s[r.value].scheduledTime <= t
    ensures r.Some? ==> forall i | 0 <= i < |s| && s[i].scheduledTime <= t :: s[i].scheduledTime <= s[r.value].scheduledTime
    // the first of equal latest places
    ensures r.Some? ==> forall i | 0 <= i < r.value && s[i].scheduledTime <= t :: s[i].scheduledTime < s[r.value].scheduledTime
  {
    Search.MaxByIndex(s, (p: Place) => p.scheduledTime <= t, TimeOf)
  }

  /** The first of the earliest places strictly after `t` (`filter { .. }.minByOrNull`). */
  function NextFollower(s: seq<Place>, t: int): (r: Option<nat>)
    ensures r.None? <==> forall i | 0 <= i < |s| :: s[i].scheduledTime <= t
    ensures r.Some? ==> r.value < |s| && s[r.value].scheduledTime > t
    ensures r.Some? ==> forall i | 0 <= i < |s| && s[i].scheduledTime > t :: s[r.value].scheduledTime <= s[i].scheduledTime
    // the first of equal earliest places
    ensures r.Some? ==> forall i | 0 <= i < r.value && s[i].scheduledTime > t :: s[r.value].scheduledTime < s[i].scheduledTime
  {
    Search.MinByIndex(s, (p: Place) => p.scheduledTime > t, TimeOf)
  }

  /**
   * `isTimeSlotAvailable`: only the closest place at or before the requested
   * time is looked at, and the aircraft itself is not exempt from it.
   */
  function IsTimeSlotAvailable(places: seq<Place>, callsign: string, requested: int, minSep: nat): (r: bool)
    ensures IndexOfCallsign(places, callsign).None? ==> !r
    ensures IndexOfCallsign(places, callsign).Some? && ClosestLeader(places, requested).None? ==> r
    ensures IndexOfCallsign(places, callsign).Some? && ClosestLeader(places, requested).Some? ==>
              var leader := places[ClosestLeader(places, requested).value];
              var me := places[IndexOfCallsign(places, callsign).value].item;
              (r <==> requested >= SafeLandingTime(leader.scheduledTime, leader.item, me, minSep))
  {
    match IndexOfCallsign(places, callsign)
    case None => false
    case Some(me) =>
      match ClosestLeader(places, requested)
      case None => true
      case Some(l) => requested >= SafeLandingTime(places[l].scheduledTime, places[l].item, places[me].item, minSep)
  }

  /**
   * Because the aircraft is not exempt, a sequenced aircraft that is its own
   * closest leader cannot be moved to any later time within one spacing
   * interval of its current slot: its own slot blocks the request.
   */
  lemma {:induction false} OwnSlotBlocksSmallDelays(places: seq<Place>, callsign: string, requested: int, minSep: nat)
    requires IndexOfCallsign(places, callsign).Some?
    requires ClosestLeader(places, requested) == IndexOfCallsign(places, callsign)
    requires var me := places[IndexOfCallsign(places, callsign).value];
             requested < me.scheduledTime + NmToSeconds(minSep, me.item.landingIas)
    ensures !IsTimeSlotAvailable(places, callsign, requested, minSep)
  {
    var me := places[IndexOfCallsign(places, callsign).value];
    SpacingRule(me.scheduledTime, me.item, me.item, minSep);
  }

  /** No leader conflict: the closest place at or before `t` is far enough ahead. */
  predicate LeaderOk(s: seq<Place>, c: Candidate, t: int, minSep: nat)
  {
    ClosestLeader(s, t).None?
    || t >= SafeLandingTime(s[ClosestLeader(s, t).value].scheduledTime, s[ClosestLeader(s, t).value].item, c, minSep)
  }

  /** No follower conflict: the next place after `t` lands far enough behind. */
  predicate FollowerOk(s: seq<Place>, c: Candidate, t: int, minSep: nat)
  {
    NextFollower(s, t).None?
    || s[NextFollower(s, t).value].scheduledTime >= SafeLandingTime(t, c, s[NextFollower(s, t).value].item, minSep)
  }

  /** The first of the latest places of the whole list (`maxByOrNull`). */
  function LastAircraft(s: seq<Place>): (r: Option<nat>)
    ensures r.None? <==> s == []
    ensures r.Some? ==> r.value < |s| && forall i | 0 <= i < |s| :: s[i].scheduledTime <= s[r.value].scheduledTime
    // the first of equal latest places
    ensures r.Some? ==> forall i | 0 <= i < r.value :: s[i].scheduledTime < s[r.value].scheduledTime
  {
    Search.MaxByIndex(s, (p: Place) => true, TimeOf)
  }

  /**
   * One round of `findBestInsertionTime` from time `t`: the new time and
   * whether the round changed it.
   */
  function Round(s: seq<Place>, c: Candidate, t: int, minSep: nat): (r: (int, bool))
    // a round that changes nothing leaves the time clear of leader and follower
    ensures !r.1 ==> r.0 == t && LeaderOk(s, c, t, minSep) && FollowerOk(s, c, t, minSep)
    ensures LeaderOk(s, c, t, minSep) && FollowerOk(s, c, t, minSep) ==> r == (t, false)
    ensures s == [] ==> r == (t, false)
  {
    var leader := ClosestLeader(s, t);
    if leader.Some? && t < SafeLandingTime(s[leader.value].scheduledTime, s[leader.value].item, c, minSep) then
      (SafeLandingTime(s[leader.value].scheduledTime, s[leader.value].item, c, minSep), true)
    else
      var follower := NextFollower(s, t);
      if follower.Some? && s[follower.value].scheduledTime < SafeLandingTime(t, c, s[follower.value].item, minSep) then
        var f := s[follower.value];
        var newTime := f.scheduledTime - NmToSeconds(EffectiveSpacing(c, f.item, minSep), f.item.landingIas);
        (newTime, newTime != t)
      else
        (t, false)
  }

  /**
   * At most `left` rounds from time `t`, stopping after the first round that
   * changes nothing: the final time and the number of rounds run.
   */
  function Rounds(s: seq<Place>, c: Candidate, t: int, minSep: nat, left: nat): (r: (int, nat))
    decreases left
  {
    if left == 0 then (t, 0)
    else
      var next := Round(s, c, t, minSep);
      if next.1 then
        var rest := Rounds(s, c, next.0, minSep, left - 1);
        (rest.0, rest.1 + 1)
      else (t, 1)
  }

  /** Rounds stop early only on a time clear of leader and follower. */
  lemma {:induction false} RoundsSettle(s: seq<Place>, c: Candidate, t: int, minSep: nat, left: nat)
    ensures Rounds(s, c, t, minSep, left).1 <= left
    ensures left > 0 ==> 1 <= Rounds(s, c, t, minSep, left).1
    ensures Rounds(s, c, t, minSep, left).1 < left ==>
              var u := Rounds(s, c, t, minSep, left).0;
              LeaderOk(s, c, u, minSep) && FollowerOk(s, c, u, minSep)
    ensures s == [] ==> Rounds(s, c, t, minSep, left).0 == t
    decreases left
  {
    if left > 0 {
      var next := Round(s, c, t, minSep);
      if next.1 {
        RoundsSettle(s, c, next.0, minSep, left - 1);
      }
    }
  }

  /**
   * The time `findBestInsertionTime` returns: the outcome of at most ten
   * rounds from the preferred time, or, once all ten have run, the safe time
   * behind the last aircraft of the list.
   */
  function BestTime(s: seq<Place>, c: Candidate, minSep: nat): int
  {
    var search := Rounds(s, c, c.preferredTime, minSep, MaxIterations);
    if search.1 >= MaxIterations && s != [] then
      SafeLandingTime(s[LastAircraft(s).value].scheduledTime, s[LastAircraft(s).value].item, c, minSep)
    else search.0
  }

  /** What the best insertion time guarantees. */
  predicate BestInsertion(s: seq<Place>, c: Candidate, t: int, minSep: nat)
  {
    && (s == [] ==> t == c.preferredTime)
    && (s != [] ==>
          || (LeaderOk(s, c, t, minSep) && FollowerOk(s, c, t, minSep))
          || t == SafeLandingTime(s[LastAircraft(s).value].scheduledTime, s[LastAircraft(s).value].item, c, minSep))
  }

  /**
   * With no places the preferred time is kept; otherwise the time is clear
   * of its leader and follower, or it is the fallback behind the last aircraft.
   */
  lemma {:induction false} BestTimeIsBestInsertion(s: seq<Place>, c: Candidate, minSep: nat)
    ensures BestInsertion(s, c, BestTime(s, c, minSep), minSep)
  {
    RoundsSettle(s, c, c.preferredTime, minSep, MaxIterations);
  }

  /** The body of the `findBestInsertionTime` loop: one round from `bestTime`. */
  method RunRound(existing: seq<Place>, c: Candidate, t: int, minSep: nat) returns (bestTime: int, timeChanged: bool)
    ensures (bestTime, timeChanged) == Round(existing, c, t, minSep)
  {
    bestTime := t;
    timeChanged := false;
    var leader := ClosestLeader(existing, bestTime);
    if leader.Some? {
      var l := existing[leader.value];
      var requiredTime := SafeLandingTime(l.scheduledTime, l.item, c, minSep);
      if bestTime < requiredTime {
        bestTime := requiredTime;
        timeChanged := true;
      }
    }
    if !timeChanged {
      var follower := NextFollower(existing, bestTime);
      if follower.Some? {
        var f := existing[follower.value];
        var requiredFollowerTime := SafeLandingTime(bestTime, c, f.item, minSep);
        if f.scheduledTime < requiredFollowerTime {
          var newTime := f.scheduledTime - NmToSeconds(EffectiveSpacing(c, f.item, minSep), f.item.landingIas);
          if newTime != bestTime {
            bestTime := newTime;
            timeChanged := true;
          }
        }
      }
    }
  }

  /**
   * `findBestInsertionTime`: starting at the preferred time, each round first
   * moves the time later when the closest leader is too close, otherwise
   * earlier to exactly one spacing ahead of a follower that would be too
   * close. The search stops after a round without change or after ten rounds;
   * after the tenth round (even one that changed nothing) the time falls back
   * to the safe time behind the last aircraft of the list.
   */
  method FindBestInsertionTime(existing: seq<Place>, c: Candidate, minSep: nat)
    returns (bestTime: int, ghost iterations: nat)
    ensures bestTime == BestTime(existing, c, minSep)
    ensures iterations == Rounds(existing, c, c.preferredTime, minSep, MaxIterations).1
    ensures 1 <= iterations <= MaxIterations
    ensures existing == [] ==> bestTime == c.preferredTime
    ensures iterations < MaxIterations ==> LeaderOk(existing, c, bestTime, minSep) && FollowerOk(existing, c, bestTime, minSep)
    ensures iterations == MaxIterations && existing != [] ==>
              var last := existing[LastAircraft(existing).value];
              bestTime == SafeLandingTime(last.scheduledTime, last.item, c, minSep)
  {
    bestTime := c.preferredTime;
    var rounds := 0;
    var converged := false;
    ghost var search := Rounds(existing, c, c.preferredTime, minSep, MaxIterations);
    while rounds < MaxIterations && !converged
      invariant 0 <= rounds <= MaxIterations
      // the rounds still to run finish the search `Rounds` describes
      invariant converged ==> search == (bestTime, rounds)
      invariant !converged ==> search == (Rounds(existing, c, bestTime, minSep, MaxIterations - rounds).0,
                                          rounds + Rounds(existing, c, bestTime, minSep, MaxIterations - rounds).1)
      decreases MaxIterations - rounds, if converged then 0 else 1
    {
      rounds := rounds + 1;
      var timeChanged;
      bestTime, timeChanged := RunRound(existing, c, bestTime, minSep);
      if !timeChanged {
        converged := true;
      }
    }
    iterations := rounds;
    RoundsSettle(existing, c, c.preferredTime, minSep, MaxIterations);
    if rounds >= MaxIterations {
      var last := LastAircraft(existing);
      if last.Some? {
        var l := existing[last.value];
        bestTime := SafeLandingTime(l.scheduledTime, l.item, c, minSep);
      }
    }
  }

  function PlaceIds(ps: seq<Place>): set<string>
  {
    set p | p in ps :: p.item.callsign
  }

  function PreferredTimeOf(c: Candidate): int { c.preferredTime }

  /** The candidates not yet in the sequence, by preferred time (stable). */
  function NewCandidates(places: seq<Place>, candidates: seq<Candidate>): (r: seq<Candidate>)
    ensures forall c | c in r :: c in candidates && c.callsign !in PlaceIds(places)
  {
    var unsequenced := Search.Filter(candidates, (c: Candidate) => c.callsign !in PlaceIds(places));
    var sorted := Sorting.Sort(unsequenced, Sorting.ByKey(PreferredTimeOf));
    assert forall c | c in sorted :: c in multiset(sorted);
    sorted
  }

  /** The new candidates that are inside the AAH: the aircraft `updateSequence` adds. */
  function Admitted(places: seq<Place>, candidates: seq<Candidate>, now: int): (r: seq<Candidate>)
    ensures forall c | c in r :: c in candidates && c.callsign !in PlaceIds(places) && InAah(c, now)
  {
    Search.Filter(NewCandidates(places, candidates), InAahAt(now))
  }

  lemma {:induction false} ItemsAppend(a: seq<Place>, b: seq<Place>)
    ensures Items(a + b) == Items(a) + Items(b)
  {
    assert Sorting.Map(a + b, ItemOf) == Sorting.Map(a, ItemOf) + Sorting.Map(b, ItemOf);
  }

  lemma {:induction false} ItemsInsertAt(s: seq<Place>, k: nat, p: Place)
    requires k <= |s|
    ensures Items(InsertAt(s, k, p)) == Items(s) + multiset{p.item}
  {
    assert s == s[..k] + s[k..];
    ItemsAppend(s[..k], s[k..]);
    ItemsAppend(s[..k] + [p], s[k..]);
    ItemsAppend(s[..k], [p]);
  }

  /** The list after `c` is placed at its best insertion time, before the first place landing later. */
  function AdmitOne(s: seq<Place>, c: Candidate, minSep: nat): seq<Place>
  {
    var t := BestTime(s, c, minSep);
    InsertAt(s, InsertionIndex(s, t), Place(c, t))
  }

  /** The list after the candidates `cs` are admitted one after the other. */
  function AdmitAll(s: seq<Place>, cs: seq<Candidate>, minSep: nat): seq<Place>
    decreases |cs|
  {
    if cs == [] then s
    else AdmitOne(AdmitAll(s, cs[..|cs| - 1], minSep), cs[|cs| - 1], minSep)
  }

  lemma {:induction false} AdmitAllSnoc(s: seq<Place>, cs: seq<Candidate>, c: Candidate, minSep: nat)
    ensures AdmitAll(s, cs + [c], minSep) == AdmitOne(AdmitAll(s, cs, minSep), c, minSep)
  {
    assert (cs + [c])[..|cs|] == cs;
  }

  /** One step of `updateSequence`: the candidate is inserted at its best insertion time. */
  method Admit(s: seq<Place>, c: Candidate, minSep: nat) returns (r: seq<Place>, place: Place)
    requires SortedByTime(s)
    ensures place.item == c
    ensures BestInsertion(s, c, place.scheduledTime, minSep)
    ensures r == InsertAt(s, InsertionIndex(s, place.scheduledTime), place)
    ensures r == AdmitOne(s, c, minSep)
    ensures SortedByTime(r)
    ensures multiset(r) == multiset(s) + multiset{place}
    ensures Items(r) == Items(s) + multiset{c}
  {
    var bestTime, _ := FindBestInsertionTime(s, c, minSep);
    BestTimeIsBestInsertion(s, c, minSep);
    place := Place(c, bestTime);
    var k := InsertionIndex(s, bestTime);
    InsertionKeepsSorted(s, place);
    ItemsInsertAt(s, k, place);
    r := InsertAt(s, k, place);
  }

  lemma {:induction false} AdmittedStep(news: seq<Candidate>, i: nat, now: int)
    requires i < |news|
    ensures Search.Filter(news[..i + 1], InAahAt(now))
            == Search.Filter(news[..i], InAahAt(now)) + if InAah(news[i], now) then [news[i]] else []
  {
    assert news[..i + 1] == news[..i] + [news[i]];
    Search.FilterAppend(news[..i], [news[i]], InAahAt(now));
  }

  /** The loop of `updateSequence`: each admitted candidate is placed at its best insertion time. */
  method InsertAdmitted(sorted: seq<Place>, news: seq<Candidate>, minSep: nat, now: int)
    returns (r: seq<Place>, ghost added: multiset<Place>)
    requires SortedByTime(sorted)
    ensures r == AdmitAll(sorted, Search.Filter(news, InAahAt(now)), minSep)
    ensures SortedByTime(r)
    ensures multiset(r) == multiset(sorted) + added
    ensures Items(r) == Items(sorted) + multiset(Search.Filter(news, InAahAt(now)))
    ensures |added| == |Search.Filter(news, InAahAt(now))|
    ensures forall p | p in added :: p.item in news && InAah(p.item, now)
  {
    r, added := sorted, multiset{};
    ghost var admitted: seq<Candidate> := [];
    var i := 0;
    assert news[..0] == [];
    while i < |news|
      invariant 0 <= i <= |news|
      invariant AdmittedSoFar(sorted, news, i, now, r, added, admitted)
      invariant r == AdmitAll(sorted, admitted, minSep)
    {
      AdmitAllSnoc(sorted, admitted, news[i], minSep);
      r, added, admitted := AdmitNext(sorted, news, i, minSep, now, r, added, admitted);
      i := i + 1;
    }
    assert news[..|news|] == news;
  }

  /** What the loop of `updateSequence` has achieved after its first `i` candidates. */
  ghost predicate AdmittedSoFar(sorted: seq<Place>, news: seq<Candidate>, i: nat, now: int,
                                r: seq<Place>, added: multiset<Place>, admitted: seq<Candidate>)
    requires i <= |news|
  {
    && admitted == Search.Filter(news[..i], InAahAt(now))
    && SortedByTime(r)
    && multiset(r) == multiset(sorted) + added
    && Items(r) == Items(sorted) + multiset(admitted)
    && |added| == |admitted|
    && forall p | p in added :: p.item in news && InAah(p.item, now)
  }

  /** The body of the `updateSequence` loop: the `i`th candidate is placed when it is inside the AAH. */
  method AdmitNext(sorted: seq<Place>, news: seq<Candidate>, i: nat, minSep: nat, now: int,
                   r: seq<Place>, ghost added: multiset<Place>, ghost admitted: seq<Candidate>)
    returns (r': seq<Place>, ghost added': multiset<Place>, ghost admitted': seq<Candidate>)
    requires i < |news| && AdmittedSoFar(sorted, news, i, now, r, added, admitted)
    ensures AdmittedSoFar(sorted, news, i + 1, now, r', added', admitted')
    ensures !InAah(news[i], now) ==> r' == r && admitted' == admitted
    ensures InAah(news[i], now) ==> r' == AdmitOne(r, news[i], minSep) && admitted' == admitted + [news[i]]
    ensures multiset(r) <= multiset(r')
  {
    var c := news[i];
    r', added', admitted' := r, added, admitted;
    if InAah(c, now) {
      var place;
      r', place := Admit(r, c, minSep);
      Placed(sorted, news, i, now, r, added, admitted, r', place);
      added' := added + multiset{place};
      admitted' := admitted + [c];
    } else {
      Skipped(sorted, news, i, now, r, added, admitted);
    }
  }

  lemma {:induction false} Skipped(sorted: seq<Place>, news: seq<Candidate>, i: nat, now: int,
                r: seq<Place>, added: multiset<Place>, admitted: seq<Candidate>)
    requires i < |news| && AdmittedSoFar(sorted, news, i, now, r, added, admitted) && !InAah(news[i], now)
    ensures AdmittedSoFar(sorted, news, i + 1, now, r, added, admitted)
  {
    AdmittedStep(news, i, now);
  }

  lemma {:induction false} Placed(sorted: seq<Place>, news: seq<Candidate>, i: nat, now: int,
               r: seq<Place>, added: multiset<Place>, admitted: seq<Candidate>, r': seq<Place>, place: Place)
    requires i < |news| && AdmittedSoFar(sorted, news, i, now, r, added, admitted) && InAah(news[i], now)
    requires place.item == news[i] && SortedByTime(r')
    requires multiset(r') == multiset(r) + multiset{place} && Items(r') == Items(r) + multiset{news[i]}
    ensures AdmittedSoFar(sorted, news, i + 1, now, r', added + multiset{place}, admitted + [news[i]])
  {
    AdmittedStep(news, i, now);
    assert multiset(admitted + [news[i]]) == multiset(admitted) + multiset{news[i]};
  }

  lemma {:induction false} SortedByTimeOf(s: seq<Place>)
    requires Sorting.SortedBy(s, Sorting.ByKey(TimeOf))
    ensures SortedByTime(s)
  {
    forall i, j | 0 <= i < j < |s|
      ensures s[i].scheduledTime <= s[j].scheduledTime
    {
      assert Sorting.ByKey(TimeOf)(s[i], s[j]);
      assert Sorting.ByKey(TimeOf)(s[i], s[j]) == (TimeOf(s[i]) <= TimeOf(s[j]));
    }
  }

  /**
   * `updateSequence`: the existing places, sorted by time, stay exactly as
   * they are; every new candidate inside the AAH is inserted, in order of
   * preferred time, at its best insertion time, before the first place
   * landing later.
   */
  method UpdateSequence(places: seq<Place>, candidates: seq<Candidate>, minSep: nat, now: int)
    returns (r: seq<Place>)
    // the admitted candidates are placed one by one into the list sorted by time
    ensures r == AdmitAll(Sorting.Sort(places, Sorting.ByKey(TimeOf)), Admitted(places, candidates, now), minSep)
    ensures SortedByTime(r)
    // no existing place is lost or changed
    ensures multiset(places) <= multiset(r)
    // the aircraft are the old ones plus the admitted new ones, each once
    ensures Items(r) == Items(places) + multiset(Admitted(places, candidates, now))
    ensures |r| == |places| + |Admitted(places, candidates, now)|
    ensures forall p | p in r && p !in places ::
              p.item in candidates && Id(p) !in PlaceIds(places) && InAah(p.item, now)
  {
    var news := NewCandidates(places, candidates);
    var sorted := Sorting.Sort(places, Sorting.ByKey(TimeOf));
    Sorting.ByKeyIsTotalPreorder(TimeOf);
    Sorting.SortIsSorted(places, Sorting.ByKey(TimeOf));
    Sorting.SortMap(places, Sorting.ByKey(TimeOf), ItemOf);
    SortedByTimeOf(sorted);
    ghost var added;
    r, added := InsertAdmitted(sorted, news, minSep, now);
    assert |Items(r)| == |r|;
    forall p | p in r && p !in places
      ensures p.item in candidates && Id(p) !in PlaceIds(places) && InAah(p.item, now)
    {
      assert p in multiset(r);
      assert p in added;
    }
  }
}
