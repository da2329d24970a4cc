# aman-dman in Dafny

This project models the core of aman-dman, an arrival and departure manager for virtual air traffic control. The system has three parts, and each is modelled in the form its source takes.

- **The AMAN/DMAN client (Kotlin).**
  - Arrival sequencing: the horizon pass that gives entering aircraft a scheduled time spaced by wake category behind their leader, the rebuild of a sequence after a change, and the legacy and current sequence services.
  - Timeline recalculation: the timeline controller and the timeline and arrival labels.
  - Runway modes and their manager.
  - STAR and navdata parsing with its constraint lookups.
  - Tabs, the CDM client, departure events, and the handlers that send or receive data updates.
  - Objects whose fields the client updates (the sequence, the tab state, the runway-mode manager, the data-update handlers) are classes with `modifies` clauses. The pure services are functions.
- **The EuroScope bridge (C++).**
  - `AmanPlugIn`: the subscription registry; inbound aircraft lookups by fix and route; the vertical-profile sampler that sorts a trajectory into 5000 ft altitude bands; departure-time parsing.
  - `AmanServer`: the single-client socket server, with its FIFO outbound queue, its line framing of inbound data, and its connect, stop and sender states.
- **The coordination server (TypeScript and JavaScript).**
  - Master-role leases per airport: claim, renew, release and expiry.
  - The client-version compatibility route.
  - The simple server's variant of that route.

Conventions used throughout:
- Times are integer seconds; the coordination server uses integer milliseconds, as `Date.now()` does.
- Distances are integer tenths of a nautical mile.
- Clocks are a parameter `now`.
- Nullable values and thrown exceptions are `Option` or `Result` values.
- Kotlin's insertion-ordered `mutableMapOf` is the `LinkedMap` module.
- Sorting is a stable insertion sort over a caller-supplied order.

## Model

| member | source | states |
|---|---|---|
| Spacing.WakeTable | aman-dman-client/model/src/main/kotlin/no/vaccsca/amandman/model/domain/service/SequenceService.kt:465-474 | the table lists exactly the seven (leader, follower) pairs H/H, H/M, H/L, M/L, J/H, J/M, J/L, each between 4.0 and 8.0 NM |
| Spacing.WakeSpacing | aman-dman-client/model/src/main/kotlin/no/vaccsca/amandman/model/domain/service/SequenceService.kt:424 | a listed pair gets its table value; an unlisted pair gets the 3.0 NM default, so the wake spacing is never below 3.0 NM |
| Spacing.NmToSecondsRoundsDown | aman-dman-client/model/src/main/kotlin/no/vaccsca/amandman/model/domain/service/SequenceService.kt:476-479 | the converted interval is the exact flying time of the distance at the given speed, rounded down to a whole second |
| Spacing.NmToSecondsMonotone | aman-dman-client/model/src/main/kotlin/no/vaccsca/amandman/model/domain/service/SequenceService.kt:476-479 | a longer spacing distance never gives a shorter interval |
| Spacing.NmToSecondsAntitone | aman-dman-client/model/src/main/kotlin/no/vaccsca/amandman/model/domain/service/SequenceService.kt:476-479 | the same distance takes no longer at a higher landing speed |
| SequenceService.EffectiveSpacing | aman-dman-client/model/src/main/kotlin/no/vaccsca/amandman/model/domain/service/SequenceService.kt:419-426 | aircraft on two different assigned runways are spaced by the minimum separation only; otherwise by the larger of the wake spacing and the minimum separation |
| SequenceService.SafeLandingTime | aman-dman-client/model/src/main/kotlin/no/vaccsca/amandman/model/domain/service/SequenceService.kt:413-430 | a follower's earliest landing time is never before its leader's |
| SequenceService.SpacingRule | aman-dman-client/model/src/main/kotlin/no/vaccsca/amandman/model/domain/service/SequenceService.kt:419-447 | different non-null runways: exactly the minimum separation, flown at the follower's landing speed; same or unknown runway: at least the minimum separation, at least the wake spacing and at least 3.0 NM |
| SequenceService.ReSchedule | aman-dman-client/model/src/main/kotlin/no/vaccsca/amandman/model/domain/service/SequenceService.kt:53-57 | the sequence is emptied whatever it held |
| SequenceService.RemoveFromSequence | aman-dman-client/model/src/main/kotlin/no/vaccsca/amandman/model/domain/service/SequenceService.kt:125-128 | a place is kept if and only if its callsign is not among those given |
| SequenceService.RemoveFromSequenceKeepsOrder | aman-dman-client/model/src/main/kotlin/no/vaccsca/amandman/model/domain/service/SequenceService.kt:125-128 | removal decides place by place and distributes over concatenation, so the kept places stay in their original order |
| SequenceService.ResolveConflict | aman-dman-client/model/src/main/kotlin/no/vaccsca/amandman/model/domain/service/SequenceService.kt:106-116 | a follower that is already late enough is untouched; a conflicting manual follower moves exactly to the safe time, an automatic one to the later of the safe time and its preferred time; nobody moves earlier and the aircraft and manual flag are kept |
| SequenceService.SpacedIsOrdered | aman-dman-client/model/src/main/kotlin/no/vaccsca/amandman/model/domain/service/SequenceService.kt:298-318 | places that respect the safe spacing pairwise are in non-decreasing time order |
| SequenceService.IndexOfCallsign | aman-dman-client/model/src/main/kotlin/no/vaccsca/amandman/model/domain/service/SequenceService.kt:70-71 | the first place with the callsign, or absent exactly when no place has it |
| SequenceService.RemoveAt | aman-dman-client/model/src/main/kotlin/no/vaccsca/amandman/model/domain/service/SequenceService.kt:73-74 | the list one shorter, the places before the index kept and those after it shifted down by one |
| SequenceService.InsertionIndex | aman-dman-client/model/src/main/kotlin/no/vaccsca/amandman/model/domain/service/SequenceService.kt:77-78 | every place before the index lands at or before the requested time and the place at the index lands after it (or the index is the end) |
| SequenceService.InsertAt | aman-dman-client/model/src/main/kotlin/no/vaccsca/amandman/model/domain/service/SequenceService.kt:93 | the list one longer with the place at the index, the places before kept and those after shifted up by one |
| SequenceService.MovedTime | aman-dman-client/model/src/main/kotlin/no/vaccsca/amandman/model/domain/service/SequenceService.kt:80-91 | the moved aircraft lands no earlier than requested and no earlier than the safe time behind its new leader, and at one of those two times |
| SequenceService.PushBackFollowers | aman-dman-client/model/src/main/kotlin/no/vaccsca/amandman/model/domain/service/SequenceService.kt:95-117 | places up to the moved one are untouched; each later place is resolved against its already adjusted predecessor, is never moved earlier, and the result is spaced from the moved place on |
| SequenceService.SuggestScheduledTime | aman-dman-client/model/src/main/kotlin/no/vaccsca/amandman/model/domain/service/SequenceService.kt:64-119 | an unknown callsign leaves the sequence unchanged; otherwise the length is kept, the aircraft is re-inserted by requested time, flagged manual, at or after the requested time and the safe time behind its new leader, and every place behind it is pushed back as needed, never earlier, and spaced |
| SequenceService.ClosestLeader | aman-dman-client/model/src/main/kotlin/no/vaccsca/amandman/model/domain/service/SequenceService.kt:154-156 | a place at or before the time with the latest such time, the first of equal latest places (`maxByOrNull`), or absent exactly when every place is later |
| SequenceService.IsTimeSlotAvailable | aman-dman-client/model/src/main/kotlin/no/vaccsca/amandman/model/domain/service/SequenceService.kt:141-177 | false for an unsequenced callsign; true when nobody lands at or before the requested time; otherwise true exactly when the closest leader is the aircraft itself or the requested time is at least the safe time behind that leader |
| SequenceService.LastLocked | aman-dman-client/model/src/main/kotlin/no/vaccsca/amandman/model/domain/service/SequenceService.kt:334-335 | the latest place inside the locked horizon, the first of equal latest places (`maxByOrNull`), or absent exactly when no place is locked |
| SequenceService.NextFollower | aman-dman-client/model/src/main/kotlin/no/vaccsca/amandman/model/domain/service/SequenceService.kt:367-369 | the earliest place strictly after the time, the first of equal earliest places (`minByOrNull`), or absent exactly when none is later |
| SequenceService.AfterLocked | aman-dman-client/model/src/main/kotlin/no/vaccsca/amandman/model/domain/service/SequenceService.kt:333-346 | a time at or before the last locked place becomes the safe time behind it; any other time is kept; the time never decreases |
| SequenceService.AfterLeader | aman-dman-client/model/src/main/kotlin/no/vaccsca/amandman/model/domain/service/SequenceService.kt:348-364 | the time becomes at least the safe time behind the closest leader, and is either unchanged or exactly that safe time |
| SequenceService.AfterFollower | aman-dman-client/model/src/main/kotlin/no/vaccsca/amandman/model/domain/service/SequenceService.kt:366-395 | when the next follower is unlocked and would be too close, the new aircraft lands exactly one safe spacing ahead of it; otherwise the time is kept; the time never increases |
| SequenceService.BestInsertionTimeWithoutConflict | aman-dman-client/model/src/main/kotlin/no/vaccsca/amandman/model/domain/service/SequenceService.kt:326-398 | with no locked place at or after the preferred time, no leader too close and no follower too close (in particular with no places at all) the preferred time is returned |
| SequenceService.FindBestInsertionTime | aman-dman-client/model/src/main/kotlin/no/vaccsca/amandman/model/domain/service/SequenceService.kt:326-398 | the running best time goes through the locked, leader and follower steps in that order |
| SequenceService.PushPastLocked | aman-dman-client/model/src/main/kotlin/no/vaccsca/amandman/model/domain/service/SequenceService.kt:331-346 | the locked-horizon step, as `AfterLocked` states it |
| SequenceService.PushPastLeader | aman-dman-client/model/src/main/kotlin/no/vaccsca/amandman/model/domain/service/SequenceService.kt:348-364 | the leader step, as `AfterLeader` states it |
| SequenceService.PullBeforeFollower | aman-dman-client/model/src/main/kotlin/no/vaccsca/amandman/model/domain/service/SequenceService.kt:366-395 | the follower step, as `AfterFollower` states it |
| SequenceService.LatestCandidate | aman-dman-client/model/src/main/kotlin/no/vaccsca/amandman/model/domain/service/SequenceService.kt:185 | a candidate with the id, or absent exactly when no candidate has it |
| SequenceService.ExistingPlace | aman-dman-client/model/src/main/kotlin/no/vaccsca/amandman/model/domain/service/SequenceService.kt:188 | a place with the id, or absent exactly when no place has it |
| SequenceService.OriginalOrder | aman-dman-client/model/src/main/kotlin/no/vaccsca/amandman/model/domain/service/SequenceService.kt:227-228 | Int.MAX_VALUE for an aircraft that had no place, else an index of a place holding it |
| SequenceService.ActiveCandidates | aman-dman-client/model/src/main/kotlin/no/vaccsca/amandman/model/domain/service/SequenceService.kt:190-208 | only current candidates inside the 30-minute sequencing horizon; every sequenced aircraft whose latest data is inside the horizon, and every new candidate inside it, is among them |
| SequenceService.ManualPlaces | aman-dman-client/model/src/main/kotlin/no/vaccsca/amandman/model/domain/service/SequenceService.kt:237-245 | one place per manual aircraft, in order, keeping the stored time and the manual flag |
| SequenceService.AutoTime | aman-dman-client/model/src/main/kotlin/no/vaccsca/amandman/model/domain/service/SequenceService.kt:251-269 | at least the preferred time and at least the safe time behind every manual place that originally preceded the aircraft, and equal to one of those |
| SequenceService.AutoPlaces | aman-dman-client/model/src/main/kotlin/no/vaccsca/amandman/model/domain/service/SequenceService.kt:247-276 | one automatic place per kept aircraft, in order, at its `AutoTime` |
| SequenceService.PlaceNewAppends | aman-dman-client/model/src/main/kotlin/no/vaccsca/amandman/model/domain/service/SequenceService.kt:278-291 | placing the new aircraft appends exactly them, in the given order, after the places already there |
| SequenceService.PlaceNewAircraft | aman-dman-client/model/src/main/kotlin/no/vaccsca/amandman/model/domain/service/SequenceService.kt:278-291 | each new aircraft is placed at its best insertion time against the places built so far |
| SequenceService.KeptPlaces | aman-dman-client/model/src/main/kotlin/no/vaccsca/amandman/model/domain/service/SequenceService.kt:210-276 | the manual and kept automatic places together with the new aircraft are exactly the active aircraft, counted with multiplicity |
| SequenceService.PlacesBeforeFinalPass | aman-dman-client/model/src/main/kotlin/no/vaccsca/amandman/model/domain/service/SequenceService.kt:184-296 | the places sorted for the final pass hold exactly the active aircraft, counted with multiplicity |
| SequenceService.PlacesBeforeFinalPassImpl | aman-dman-client/model/src/main/kotlin/no/vaccsca/amandman/model/domain/service/SequenceService.kt:184-296 | the steps of `updateSequence` before the final pass build `PlacesBeforeFinalPass` |
| SequenceService.FinalPass | aman-dman-client/model/src/main/kotlin/no/vaccsca/amandman/model/domain/service/SequenceService.kt:298-318 | the same aircraft, the first place untouched, each later place resolved against its adjusted predecessor; the result is spaced and in non-decreasing time order |
| SequenceService.UpdateSequence | aman-dman-client/model/src/main/kotlin/no/vaccsca/amandman/model/domain/service/SequenceService.kt:179-321 | exactly the active aircraft (current candidates inside the sequencing horizon), each conflict resolved in the final pass, and the result spaced pairwise and in non-decreasing time order |
| SequenceService.ActiveItems | aman-dman-client/model/src/main/kotlin/no/vaccsca/amandman/model/domain/service/SequenceService.kt:204-208 | every place of the result holds a current candidate inside the sequencing horizon |
| Sorting.SortIsSorted | aman-dman-client/model/src/main/kotlin/no/vaccsca/amandman/model/domain/service/SequenceService.kt:294-296 | the sort used for the sequences orders its result by the given total preorder |
| Sorting.SortByKeyStable | aman-dman-client/model/src/main/kotlin/no/vaccsca/amandman/model/domain/service/SequenceService.kt:294-296 | sorting by a key is stable: the elements of each key keep their input order |
| Sorting.InsertByKeyStable | aman-dman-client/model/src/main/kotlin/no/vaccsca/amandman/model/domain/service/SequenceService.kt:294-296 | inserting by key puts the new element first among those of its key and keeps the others' order |
| Sorting.SortMap | aman-dman-client/model/src/main/kotlin/no/vaccsca/amandman/model/domain/service/SequenceService.kt:294-296 | sorting only rearranges: any projection of the elements is kept with multiplicity |
| Sorting.SortedUnique | aman-dman-client/model/src/main/kotlin/no/vaccsca/amandman/model/domain/service/SequenceService.kt:294-296 | under an antisymmetric ordering a collection has only one sorted arrangement |
| LegacySequenceService.EffectiveSpacing | aman-dman-client/service/src/main/kotlin/no/vaccsca/amandman/service/AmanDmanSequenceService.kt:300-301 | the larger of the wake spacing (3.0 NM default) and the minimum separation; this version has no runway rule |
| LegacySequenceService.SafeLandingTime | aman-dman-client/service/src/main/kotlin/no/vaccsca/amandman/service/AmanDmanSequenceService.kt:294-304 | a follower's earliest landing time is never before its leader's |
| LegacySequenceService.SpacingRule | aman-dman-client/service/src/main/kotlin/no/vaccsca/amandman/service/AmanDmanSequenceService.kt:294-304 | the safe time is at least the minimum separation, at least the wake spacing and at least 3.0 NM behind the leader, flown at the follower's landing speed |
| LegacySequenceService.ReSchedule | aman-dman-client/service/src/main/kotlin/no/vaccsca/amandman/service/AmanDmanSequenceService.kt:50-54 | the sequence is emptied whatever it held |
| LegacySequenceService.RemoveFromSequence | aman-dman-client/service/src/main/kotlin/no/vaccsca/amandman/service/AmanDmanSequenceService.kt:112-115 | a place is kept if and only if its callsign is not among those given |
| LegacySequenceService.RemoveFromSequenceKeepsOrder | aman-dman-client/service/src/main/kotlin/no/vaccsca/amandman/service/AmanDmanSequenceService.kt:112-115 | removal decides place by place and distributes over concatenation, so the kept places stay in their original order |
| LegacySequenceService.IndexOfCallsign | aman-dman-client/service/src/main/kotlin/no/vaccsca/amandman/service/AmanDmanSequenceService.kt:67-68 | the first place with the callsign, or absent exactly when no place has it |
| LegacySequenceService.InsertionIndex | aman-dman-client/service/src/main/kotlin/no/vaccsca/amandman/service/AmanDmanSequenceService.kt:74-75 | every place before the index lands at or before the time and the place at the index lands after it (or the index is the end) |
| LegacySequenceService.RemoveAt | aman-dman-client/service/src/main/kotlin/no/vaccsca/amandman/service/AmanDmanSequenceService.kt:70-71 | the list one shorter, the places before the index kept and those after it shifted down by one |
| LegacySequenceService.InsertAt | aman-dman-client/service/src/main/kotlin/no/vaccsca/amandman/service/AmanDmanSequenceService.kt:90 | the list one longer with the place at the index, the others kept in order; the same places plus the new one |
| LegacySequenceService.InsertionKeepsSorted | aman-dman-client/service/src/main/kotlin/no/vaccsca/amandman/service/AmanDmanSequenceService.kt:180-190 | inserting before the first later place keeps a time-sorted list sorted |
| LegacySequenceService.MovedTime | aman-dman-client/service/src/main/kotlin/no/vaccsca/amandman/service/AmanDmanSequenceService.kt:77-88 | the moved aircraft lands no earlier than requested and no earlier than the safe time behind its new leader, and at one of those two times |
| LegacySequenceService.Delay | aman-dman-client/service/src/main/kotlin/no/vaccsca/amandman/service/AmanDmanSequenceService.kt:96-103 | a follower keeps its aircraft and lands at the later of its own time and the safe time behind its predecessor |
| LegacySequenceService.DelayFollowers | aman-dman-client/service/src/main/kotlin/no/vaccsca/amandman/service/AmanDmanSequenceService.kt:92-104 | places up to the moved one are untouched; each later place is delayed behind its already adjusted predecessor, and the result is spaced from the moved place on |
| LegacySequenceService.DelayedSpaced | aman-dman-client/service/src/main/kotlin/no/vaccsca/amandman/service/AmanDmanSequenceService.kt:92-104 | followers delayed one by one are pairwise spaced behind their predecessors |
| LegacySequenceService.SuggestScheduledTime | aman-dman-client/service/src/main/kotlin/no/vaccsca/amandman/service/AmanDmanSequenceService.kt:61-106 | an unknown callsign leaves the sequence unchanged; otherwise the length is kept, the aircraft is re-inserted by requested time at or after the requested time and the safe time behind its new leader, and every place behind it is delayed as needed, never earlier, and spaced |
| LegacySequenceService.ClosestLeader | aman-dman-client/service/src/main/kotlin/no/vaccsca/amandman/service/AmanDmanSequenceService.kt:141-143 | a place at or before the time with the latest such time, the first of equal latest places (`maxByOrNull`), or absent exactly when every place is later |
| LegacySequenceService.NextFollower | aman-dman-client/service/src/main/kotlin/no/vaccsca/amandman/service/AmanDmanSequenceService.kt:231-233 | the earliest place strictly after the time, the first of equal earliest places (`minByOrNull`), or absent exactly when none is later |
| LegacySequenceService.IsTimeSlotAvailable | aman-dman-client/service/src/main/kotlin/no/vaccsca/amandman/service/AmanDmanSequenceService.kt:128-159 | false for an unsequenced callsign; true when nobody lands at or before the requested time; otherwise true exactly when the requested time is at least the safe time behind the closest leader, with no exemption for the aircraft itself |
| LegacySequenceService.OwnSlotBlocksSmallDelays | aman-dman-client/service/src/main/kotlin/no/vaccsca/amandman/service/AmanDmanSequenceService.kt:141-158 | when the aircraft's own slot is the closest leader, a request less than one minimum-separation interval after it is reported unavailable |
| LegacySequenceService.LastAircraft | aman-dman-client/service/src/main/kotlin/no/vaccsca/amandman/service/AmanDmanSequenceService.kt:269 | the first of the latest places of the sequence (`maxByOrNull`), absent exactly for an empty sequence |
| LegacySequenceService.Round | aman-dman-client/service/src/main/kotlin/no/vaccsca/amandman/service/AmanDmanSequenceService.kt:208-263 | a round that changes nothing keeps the time and leaves it clear of leader and follower; a clear time, or an empty list, is never changed |
| LegacySequenceService.RunRound | aman-dman-client/service/src/main/kotlin/no/vaccsca/amandman/service/AmanDmanSequenceService.kt:208-258 | the loop body computes exactly one `Round` from the given time |
| LegacySequenceService.RoundsSettle | aman-dman-client/service/src/main/kotlin/no/vaccsca/amandman/service/AmanDmanSequenceService.kt:204-264 | the rounds run are at most the limit and at least one; stopping before the limit means the final time is clear of leader and follower; an empty list keeps the start time |
| LegacySequenceService.BestTimeIsBestInsertion | aman-dman-client/service/src/main/kotlin/no/vaccsca/amandman/service/AmanDmanSequenceService.kt:198-281 | the best time is the preferred time for an empty list, otherwise clear of leader and follower or the fallback behind the last aircraft |
| LegacySequenceService.FindBestInsertionTime | aman-dman-client/service/src/main/kotlin/no/vaccsca/amandman/service/AmanDmanSequenceService.kt:198-281 | returns `BestTime`, after the number of rounds `Rounds` runs; at most ten iterations; with no places the preferred time; stopping early means the time is spaced behind its closest leader and ahead of its next follower; reaching the tenth iteration falls back to the safe time behind the latest place |
| LegacySequenceService.NewCandidates | aman-dman-client/service/src/main/kotlin/no/vaccsca/amandman/service/AmanDmanSequenceService.kt:166-167 | only candidates whose id is not yet in the sequence |
| LegacySequenceService.Admitted | aman-dman-client/service/src/main/kotlin/no/vaccsca/amandman/service/AmanDmanSequenceService.kt:167-171 | only new candidates whose preferred time is less than 10 minutes after now |
| LegacySequenceService.Admit | aman-dman-client/service/src/main/kotlin/no/vaccsca/amandman/service/AmanDmanSequenceService.kt:174-190 | one place for the candidate is inserted at `BestTime`, before the first place landing later; that time is the preferred time for an empty list, otherwise clear of its closest leader and next follower or the fallback behind the last aircraft; the list stays sorted by time and holds the old places plus the new one |
| LegacySequenceService.AdmittedStep | aman-dman-client/service/src/main/kotlin/no/vaccsca/amandman/service/AmanDmanSequenceService.kt:170-171 | the admitted candidates of one more candidate are those before plus that candidate when it is inside the horizon |
| LegacySequenceService.AdmitNext | aman-dman-client/service/src/main/kotlin/no/vaccsca/amandman/service/AmanDmanSequenceService.kt:170-190 | one candidate of the loop: a candidate outside the horizon changes nothing; no place is ever removed |
| LegacySequenceService.Skipped | aman-dman-client/service/src/main/kotlin/no/vaccsca/amandman/service/AmanDmanSequenceService.kt:171 | a candidate outside the horizon is skipped and the loop's bookkeeping still holds |
| LegacySequenceService.Placed | aman-dman-client/service/src/main/kotlin/no/vaccsca/amandman/service/AmanDmanSequenceService.kt:174-190 | a candidate inside the horizon adds exactly one place for it and the loop's bookkeeping still holds |
| LegacySequenceService.InsertAdmitted | aman-dman-client/service/src/main/kotlin/no/vaccsca/amandman/service/AmanDmanSequenceService.kt:170-191 | the result is `AdmitAll`: each candidate inside the horizon, in order, inserted at its best insertion time into the list built so far; it stays sorted, keeps every place it started with, and adds exactly one place per admitted candidate |
| LegacySequenceService.UpdateSequence | aman-dman-client/service/src/main/kotlin/no/vaccsca/amandman/service/AmanDmanSequenceService.kt:161-193 | the admitted candidates placed one by one (`AdmitAll`) into the existing places sorted by time; sorted by time; every existing place kept with its id and time; the aircraft are the old ones plus the new candidates inside the 10-minute horizon, each once; any other place is such a new candidate |
| LinkedMap.Get | aman-dman-client/model/src/main/kotlin/no/vaccsca/amandman/model/AmanDmanSequence.kt:13 | a key is absent exactly when no entry has it; a present value is stored with the key |
| LinkedMap.Put | aman-dman-client/model/src/main/kotlin/no/vaccsca/amandman/model/AmanDmanSequence.kt:32 | the key then maps to the new value; an existing key keeps its place in the insertion order, a new key is appended last |
| LinkedMap.PutKeepsDistinct | aman-dman-client/model/src/main/kotlin/no/vaccsca/amandman/model/AmanDmanSequence.kt:32 | storing a value never creates a second entry for a key |
| LinkedMap.PutAt | aman-dman-client/model/src/main/kotlin/no/vaccsca/amandman/model/AmanDmanSequence.kt:119-124 | storing into an existing key replaces that entry in place |
| LinkedMap.GetPut | aman-dman-client/model/src/main/kotlin/no/vaccsca/amandman/model/AmanDmanSequence.kt:32 | storing under one key leaves every other key's value unchanged |
| LinkedMap.Remove | aman-dman-client/model/src/main/kotlin/no/vaccsca/amandman/model/AmanDmanSequence.kt:41 | the key is gone, every other entry is kept and nothing else is added |
| LinkedMap.RemoveKeepsOrder | aman-dman-client/model/src/main/kotlin/no/vaccsca/amandman/model/AmanDmanSequence.kt:41 | removing a key keeps exactly the other entries, in their order |
| LinkedMap.GetRemove | aman-dman-client/model/src/main/kotlin/no/vaccsca/amandman/model/AmanDmanSequence.kt:41 | removing one key leaves every other key's value unchanged |
| LinkedMap.ToMapPut | aman-dman-client/model/src/main/kotlin/no/vaccsca/amandman/model/AmanDmanSequence.kt:32 | as a map, storing is map update |
| LinkedMap.ToMapRemove | aman-dman-client/model/src/main/kotlin/no/vaccsca/amandman/model/AmanDmanSequence.kt:41 | as a map, removing is removal of the key from the domain |
| HorizonArrivals.CalculateFinalTime | aman-dman-client/model/src/main/kotlin/no/vaccsca/amandman/model/AmanDmanSequence.kt:133-141 | the later of the arrival's own estimate and the reference time plus the wake spacing flown at 140 kt |
| HorizonArrivals.SpacingTimeAtLeastDefault | aman-dman-client/model/src/main/kotlin/no/vaccsca/amandman/model/AmanDmanSequence.kt:137-138 | the wake interval behind any leader is at least the 3.0 NM default at 140 kt, 77 s |
| HorizonArrivals.ArrivalOrderIsTotalPreorder | aman-dman-client/model/src/main/kotlin/no/vaccsca/amandman/model/AmanDmanSequence.kt:48-51 | the processing order (stored time, unscheduled last, then estimate) is a total preorder, so the sort is well defined |
| HorizonArrivals.ProcessingOrder | aman-dman-client/model/src/main/kotlin/no/vaccsca/amandman/model/AmanDmanSequence.kt:48-51 | the same arrivals, rearranged and ordered by stored time with unscheduled ones last, then by estimate |
| HorizonArrivals.ProcessingOrderSameElements | aman-dman-client/model/src/main/kotlin/no/vaccsca/amandman/model/AmanDmanSequence.kt:48-51 | an arrival is processed exactly when it was passed in |
| HorizonArrivals.WalkStopsOnEmptyTrajectory | aman-dman-client/model/src/main/kotlin/no/vaccsca/amandman/model/AmanDmanSequence.kt:57-59 | the loop stops before the end exactly when some arrival has an empty trajectory |
| AmanDmanSequenceModel.IsInAah | aman-dman-client/model/src/main/kotlin/no/vaccsca/amandman/model/AmanDmanSequence.kt:146-148 | absent (the exception of `!!`) exactly for an empty trajectory; otherwise inside exactly when the first point is less than 30 minutes out |
| AmanDmanSequenceModel.FindCallsign | aman-dman-client/model/src/main/kotlin/no/vaccsca/amandman/model/AmanDmanSequence.kt:129-131 | the first arrival with the callsign, or absent exactly when none has it |
| AmanDmanSequenceModel.LatestOccurrence | aman-dman-client/model/src/main/kotlin/no/vaccsca/amandman/model/AmanDmanSequence.kt:129-131 | an arrival of the latest update with the callsign, or absent exactly when none has it |
| AmanDmanSequenceModel.LastOk | aman-dman-client/model/src/main/kotlin/no/vaccsca/amandman/model/AmanDmanSequence.kt:54-86 | the last occurrence given so far that was sequenced, or absent exactly when none was |
| AmanDmanSequenceModel.FirstOkTime | aman-dman-client/model/src/main/kotlin/no/vaccsca/amandman/model/AmanDmanSequence.kt:60-66 | absent exactly when no sequenced occurrence of the callsign was given so far |
| AmanDmanSequenceModel.FirstOkTimeAppend | aman-dman-client/model/src/main/kotlin/no/vaccsca/amandman/model/AmanDmanSequence.kt:60-66 | the first stored time of a callsign changes only when it had none and the new occurrence is sequenced |
| AmanDmanSequenceModel.EnteringTime | aman-dman-client/model/src/main/kotlin/no/vaccsca/amandman/model/AmanDmanSequence.kt:75-79 | never before the arrival's estimate; with no aircraft sequenced yet the later of the estimate and the first arrival's estimate; otherwise the final time behind the last sequenced aircraft, at least the wake spacing after it |
| AmanDmanSequenceModel.Outcome | aman-dman-client/model/src/main/kotlin/no/vaccsca/amandman/model/AmanDmanSequence.kt:57-93 | one occurrence per arrival with its identity kept: an already scheduled one OK at its stored time; one entering the horizon OK at its entering time; one outside AWAITING_FOR_SEQUENCE with its time untouched |
| AmanDmanSequenceModel.Known | aman-dman-client/model/src/main/kotlin/no/vaccsca/amandman/model/AmanDmanSequence.kt:105-110 | exactly the stored entries whose callsign occurs in the latest arrivals, each paired with that occurrence |
| AmanDmanSequenceModel.KnownKeepsDistinct | aman-dman-client/model/src/main/kotlin/no/vaccsca/amandman/model/AmanDmanSequence.kt:105-110 | the entries taken from the map have distinct callsigns |
| AmanDmanSequenceModel.KnownFresh | aman-dman-client/model/src/main/kotlin/no/vaccsca/amandman/model/AmanDmanSequence.kt:105-110 | a callsign not stored is not among the entries |
| AmanDmanSequenceModel.RebuildOrder | aman-dman-client/model/src/main/kotlin/no/vaccsca/amandman/model/AmanDmanSequence.kt:105-112 | the same entries, rearranged and sorted by stored time |
| AmanDmanSequenceModel.RebuildOrderEntries | aman-dman-client/model/src/main/kotlin/no/vaccsca/amandman/model/AmanDmanSequence.kt:105-112 | every entry is a stored one with a latest occurrence, and every such stored entry is there |
| AmanDmanSequenceModel.RebuildOrderKeepsDistinct | aman-dman-client/model/src/main/kotlin/no/vaccsca/amandman/model/AmanDmanSequence.kt:105-112 | the sorted entries have distinct callsigns |
| AmanDmanSequenceModel.RebuildSkipsAbsent | aman-dman-client/model/src/main/kotlin/no/vaccsca/amandman/model/AmanDmanSequence.kt:106-110 | a callsign absent from the latest arrivals is not rebuilt |
| AmanDmanSequenceModel.RebuildTimesLifted | aman-dman-client/model/src/main/kotlin/no/vaccsca/amandman/model/AmanDmanSequence.kt:114-126 | no rebuilt time is earlier than the stored time or the aircraft's estimate |
| AmanDmanSequenceModel.RebuildTimesSpaced | aman-dman-client/model/src/main/kotlin/no/vaccsca/amandman/model/AmanDmanSequence.kt:114-126 | each rebuilt time is at least the wake spacing behind the previous aircraft's rebuilt time |
| AmanDmanSequenceModel.RebuildTimesOrdered | aman-dman-client/model/src/main/kotlin/no/vaccsca/amandman/model/AmanDmanSequence.kt:114-126 | the rebuilt times are in non-decreasing order |
| AmanDmanSequenceModel.PutAllKeys | aman-dman-client/model/src/main/kotlin/no/vaccsca/amandman/model/AmanDmanSequence.kt:114-126 | writing the rebuilt times into the map keeps its keys, in order, and distinct |
| AmanDmanSequenceModel.PutAllOthers | aman-dman-client/model/src/main/kotlin/no/vaccsca/amandman/model/AmanDmanSequence.kt:114-126 | a callsign the rebuild does not visit keeps its stored time |
| AmanDmanSequenceModel.PutAllStored | aman-dman-client/model/src/main/kotlin/no/vaccsca/amandman/model/AmanDmanSequence.kt:114-126 | a visited callsign ends up with its rebuilt time |
| AmanDmanSequenceModel.RebuildStart | aman-dman-client/model/src/main/kotlin/no/vaccsca/amandman/model/AmanDmanSequence.kt:105-113 | the sorted entries are a valid start for the loop |
| AmanDmanSequenceModel.RebuildLookups | aman-dman-client/model/src/main/kotlin/no/vaccsca/amandman/model/AmanDmanSequence.kt:116-123 | inside the loop the current aircraft still has its stored time and the leader its rebuilt time and latest occurrence, so `!!` never fails and the `continue` is never taken |
| AmanDmanSequenceModel.RebuildNext | aman-dman-client/model/src/main/kotlin/no/vaccsca/amandman/model/AmanDmanSequence.kt:118-125 | one iteration stores the next rebuilt time |
| AmanDmanSequenceModel.RebuildTimesStep | aman-dman-client/model/src/main/kotlin/no/vaccsca/amandman/model/AmanDmanSequence.kt:118-125 | one iteration extends the rebuilt times by exactly one |
| AmanDmanSequenceModel.RebuildDone | aman-dman-client/model/src/main/kotlin/no/vaccsca/amandman/model/AmanDmanSequence.kt:104-127 | after the loop the map has the same keys, each visited callsign has its rebuilt time and every other keeps its stored time |
| AmanDmanSequenceModel.RebuildEntries | aman-dman-client/model/src/main/kotlin/no/vaccsca/amandman/model/AmanDmanSequence.kt:104-127 | the loop of `rebuildSequence` writes exactly the rebuilt times of the sorted entries |
| AmanDmanSequenceModel.RebuildStep | aman-dman-client/model/src/main/kotlin/no/vaccsca/amandman/model/AmanDmanSequence.kt:114-126 | one iteration of the rebuild loop, as `RebuildNext` states it |
| AmanDmanSequenceModel.StoredAfterGet | aman-dman-client/model/src/main/kotlin/no/vaccsca/amandman/model/AmanDmanSequence.kt:62-80 | the stored map after the loop maps a callsign to its first stored time |
| AmanDmanSequenceModel.StoredAfterKeys | aman-dman-client/model/src/main/kotlin/no/vaccsca/amandman/model/AmanDmanSequence.kt:62-80 | the loop keeps the map's keys distinct and only appends new keys after the old ones |
| AmanDmanSequenceModel.PutKeepsPrefix | aman-dman-client/model/src/main/kotlin/no/vaccsca/amandman/model/AmanDmanSequence.kt:80 | storing a value never moves the keys already there |
| AmanDmanSequenceModel.PassStep | aman-dman-client/model/src/main/kotlin/no/vaccsca/amandman/model/AmanDmanSequence.kt:57-93 | one arrival of the loop: a new sequenced callsign is stored, the horizon flag is set for an unscheduled one, and the last sequenced aircraft follows |
| AmanDmanSequenceModel.StoredAfterStep | aman-dman-client/model/src/main/kotlin/no/vaccsca/amandman/model/AmanDmanSequence.kt:80 | the stored map grows by one entry exactly for a newly sequenced callsign |
| AmanDmanSequenceModel.AahAfterStep | aman-dman-client/model/src/main/kotlin/no/vaccsca/amandman/model/AmanDmanSequence.kt:74-91 | an unscheduled arrival's horizon flag is set to whether it was sequenced; a scheduled one's is untouched |
| AmanDmanSequenceModel.LastOkStep | aman-dman-client/model/src/main/kotlin/no/vaccsca/amandman/model/AmanDmanSequence.kt:69-86 | the last sequenced aircraft becomes the new one exactly when it was sequenced |
| AmanDmanSequenceModel.PassedNext | aman-dman-client/model/src/main/kotlin/no/vaccsca/amandman/model/AmanDmanSequence.kt:57-93 | the loop's bookkeeping survives one more arrival |
| AmanDmanSequenceModel.Pass | aman-dman-client/model/src/main/kotlin/no/vaccsca/amandman/model/AmanDmanSequence.kt:53-93 | the loop gives each arrival its `Outcome`, stops at the first empty trajectory, and leaves the two maps as the outcomes dictate |
| AmanDmanSequenceModel.PassKeepsStoredTimes | aman-dman-client/model/src/main/kotlin/no/vaccsca/amandman/model/AmanDmanSequence.kt:62-66 | a time already stored is never changed by the loop |
| AmanDmanSequenceModel.AmanDmanSequence.constructor | aman-dman-client/model/src/main/kotlin/no/vaccsca/amandman/model/AmanDmanSequence.kt:13-16 | all three collections start empty |
| AmanDmanSequenceModel.AmanDmanSequence.ReSchedule | aman-dman-client/model/src/main/kotlin/no/vaccsca/amandman/model/AmanDmanSequence.kt:22-24 | the scheduled-time map is emptied; the other fields are untouched |
| AmanDmanSequenceModel.AmanDmanSequence.RemoveFromSequence | aman-dman-client/model/src/main/kotlin/no/vaccsca/amandman/model/AmanDmanSequence.kt:40-43 | the callsign is deleted from the scheduled-time map and from the horizon map, nothing else changes |
| AmanDmanSequenceModel.AmanDmanSequence.RebuildSequence | aman-dman-client/model/src/main/kotlin/no/vaccsca/amandman/model/AmanDmanSequence.kt:104-127 | the keys are kept; each stored callsign with a latest occurrence gets its rebuilt time, every other keeps its time |
| AmanDmanSequenceModel.AmanDmanSequence.UpdateSequence | aman-dman-client/model/src/main/kotlin/no/vaccsca/amandman/model/AmanDmanSequence.kt:45-98 | empty input: empty result and nothing changes; an empty trajectory anywhere makes the call fail (absent result); otherwise one outcome per arrival in processing order, the horizon map updated and the stored map rebuilt |
| AmanDmanSequenceModel.AmanDmanSequence.SuggestScheduledTime | aman-dman-client/model/src/main/kotlin/no/vaccsca/amandman/model/AmanDmanSequence.kt:31-34 | the requested time is stored and the map rebuilt: the keys are those with the request stored, each walked entry holds its rebuilt time, every other keeps its stored time, and the aircraft ends up no earlier than requested |
| SequencingServiceModel.IsInAah | aman-dman-client/service/src/main/kotlin/SequencingService.kt:88-90 | absent (the exception of `!!`) exactly for an empty trajectory; otherwise inside exactly when the first point is less than 100 NM out |
| SequencingServiceModel.Step | aman-dman-client/service/src/main/kotlin/SequencingService.kt:23-72 | identity, estimate and wake category kept; a scheduled callsign is OK at its stored time with nothing stored changing; one crossing into the horizon is OK, no earlier than its estimate and at least the wake spacing for the last sequenced aircraft after the reference time (which, as written, stays at the last time an already scheduled aircraft set), stored and flagged inside; one first seen inside needs manual insertion and is flagged but not stored; one outside is awaiting and flagged outside; one still inside and never scheduled is returned as it came with nothing changing |
| SequencingServiceModel.RunNext | aman-dman-client/service/src/main/kotlin/SequencingService.kt:23-73 | the loop over one more arrival is the loop so far followed by one step |
| SequencingServiceModel.RunOutputs | aman-dman-client/service/src/main/kotlin/SequencingService.kt:23-73 | each returned occurrence is the step's answer in the state the loop had reached |
| SequencingServiceModel.RunKeepsSchedule | aman-dman-client/service/src/main/kotlin/SequencingService.kt:9 | schedule entries are only ever inserted: every stored time survives unchanged |
| SequencingServiceModel.LastLeader | aman-dman-client/service/src/main/kotlin/SequencingService.kt:38-54 | the last earlier arrival that became the last sequenced one, with no such arrival after it, or absent when there is none |
| SequencingServiceModel.StepTracksLeader | aman-dman-client/service/src/main/kotlin/SequencingService.kt:37-54 | with the reference time advanced, one step keeps the state's last sequenced aircraft and reference time equal to the last leader and its given time |
| SequencingServiceModel.RunTracksLeader | aman-dman-client/service/src/main/kotlin/SequencingService.kt:20-73 | the same over the whole loop |
| SequencingServiceModel.LastLeaderPrefix | aman-dman-client/service/src/main/kotlin/SequencingService.kt:23-73 | the last leader depends only on the branches taken before |
| SequencingServiceModel.RunPrefix | aman-dman-client/service/src/main/kotlin/SequencingService.kt:23-73 | the loop over a prefix gives the prefix of the outputs |
| SequencingServiceModel.RunSpacesEntering | aman-dman-client/service/src/main/kotlin/SequencingService.kt:41-56 | with the reference time advanced, every aircraft crossing into the horizon is scheduled no earlier than its estimate and at least the wake spacing behind the last aircraft sequenced before it |
| SequencingServiceModel.ReferenceNotAdvancedBreaksSpacing | aman-dman-client/service/src/main/kotlin/SequencingService.kt:41-56 | as written, three medium aircraft with the same estimate crossing together get 1000, 1077 and 1077 s, so the third is not spaced behind the second |
| SequencingServiceModel.RunAsWrittenThree | aman-dman-client/service/src/main/kotlin/SequencingService.kt:41-56 | the outputs and branches of that run, as written |
| SequencingServiceModel.StepAsWrittenA | aman-dman-client/service/src/main/kotlin/SequencingService.kt:41-56 | the first of those crossings, as written |
| SequencingServiceModel.StepAsWrittenB | aman-dman-client/service/src/main/kotlin/SequencingService.kt:41-56 | the second of those crossings, as written: the reference time stays at 1000 s |
| SequencingServiceModel.StepAsWrittenC | aman-dman-client/service/src/main/kotlin/SequencingService.kt:41-56 | the third of those crossings, as written |
| SequencingServiceModel.Pass | aman-dman-client/service/src/main/kotlin/SequencingService.kt:18-75 | the loop over the sorted arrivals stops exactly at the first empty trajectory; up to there its outputs and maps are those of the run as written, where an entering aircraft does not advance the reference time |
| SequencingServiceModel.Visit | aman-dman-client/service/src/main/kotlin/SequencingService.kt:24-71 | the body of the loop for one arrival is one step as written, leaving the reference time where it was when an aircraft enters |
| SequencingServiceModel.Sequence | aman-dman-client/service/src/main/kotlin/SequencingService.kt:12-76 | empty input gives an empty result and no change; the call fails (absent result) exactly when some arrival has an empty trajectory; otherwise the outputs and maps are those of the run as written in processing order, one output per arrival; stored times are never changed or removed |
| SequencingServiceModel.SequencingService.constructor | aman-dman-client/service/src/main/kotlin/SequencingService.kt:9-10 | both maps start empty |
| SequencingServiceModel.SequencingService.SequenceArrivals | aman-dman-client/service/src/main/kotlin/SequencingService.kt:12-76 | the service's own maps become those of the run as written over the arrivals in processing order; the call fails exactly when some arrival has an empty trajectory; stored times are never changed or removed |
| SequencingServiceModel.SequencingService.GetScheduledTime | aman-dman-client/service/src/main/kotlin/SequencingService.kt:107 | absent exactly for a callsign never scheduled, else its stored time |
| TimelineControllerModel.ArrivalsOf | aman-dman-client/src/main/kotlin/controller/TimelineController.kt:118 | exactly the runway-arrival items, in their order, and nothing else |
| TimelineControllerModel.ArrivalsOfSorted | aman-dman-client/src/main/kotlin/controller/TimelineController.kt:118 | filtering a time-sorted list of items keeps the arrivals in time order |
| TimelineControllerModel.SequenceSorted | aman-dman-client/src/main/kotlin/controller/TimelineController.kt:118 | the sequence the loop walks is in non-decreasing time order |
| TimelineControllerModel.SequenceFromItems | aman-dman-client/src/main/kotlin/controller/TimelineController.kt:118 | every aircraft of the sequence is a runway arrival of the timeline |
| TimelineControllerModel.DelayNeverNegative | aman-dman-client/src/main/kotlin/controller/TimelineController.kt:119-142 | the accumulated delay is never negative |
| TimelineControllerModel.AssignedCases | aman-dman-client/src/main/kotlin/controller/TimelineController.kt:128-142 | too close behind the previous aircraft: the delay grows by the shortfall and the aircraft is told to lose the new delay; else too close to the next: it is told to gain the shortfall and the delay shrinks by it, clamped at zero; else it is left untouched and the delay kept |
| TimelineControllerModel.Max0 | aman-dman-client/src/main/kotlin/controller/TimelineController.kt:141 | the clamp gives the value, or zero when it is negative |
| TimelineControllerModel.LastAdequateGainsMinSeparation | aman-dman-client/src/main/kotlin/controller/TimelineController.kt:124-137 | a missing successor counts as a zero gap, so the last aircraft, adequately behind its predecessor, is always told to gain the whole minimum separation |
| TimelineControllerModel.GainBounded | aman-dman-client/src/main/kotlin/controller/TimelineController.kt:134-137 | in a time-ordered sequence a gain is never larger than the minimum separation |
| TimelineControllerModel.WrittenUpToAt | aman-dman-client/src/main/kotlin/controller/TimelineController.kt:121-143 | after the loop has passed an aircraft, its value is the one assigned to it, or its old value when none was assigned; later aircraft keep their old values |
| TimelineControllerModel.ArrivalOccurrence.constructor | aman-dman-client/src/main/kotlin/controller/TimelineController.kt:117 | a new occurrence has its time and no time to lose or gain |
| TimelineControllerModel.RecalculateSequence | aman-dman-client/src/main/kotlin/controller/TimelineController.kt:117-144 | every aircraft of the sequence ends with the value assigned to it (the first never changes, an aircraft with both gaps adequate keeps its old value) |
| TimelineControllerModel.Walk | aman-dman-client/src/main/kotlin/controller/TimelineController.kt:121-143 | the loop writes each assigned value into its aircraft and nothing else |
| TimelineControllerModel.Visit | aman-dman-client/src/main/kotlin/controller/TimelineController.kt:122-142 | one iteration returns the new accumulated delay and writes the aircraft's value, if any |
| TimelineControllerModel.WalkStep | aman-dman-client/src/main/kotlin/controller/TimelineController.kt:121-143 | one iteration extends the accumulated delay and the written values by exactly one aircraft |
| TimelineControllerModel.Write | aman-dman-client/src/main/kotlin/controller/TimelineController.kt:132-137 | writing one aircraft's value changes that value only |
| AmanPlugInModel.FindSpec | euroscope-bridge/Aman/AmanPlugIn.cpp:123-130 | absent exactly when no subscription has the request id; otherwise the index of the first one that has it |
| AmanPlugInModel.FindAt | euroscope-bridge/Aman/AmanPlugIn.cpp:123-130 | the first subscription carrying the id is the one found |
| AmanPlugInModel.FindNone | euroscope-bridge/Aman/AmanPlugIn.cpp:123-130 | with no subscription carrying the id, none is found |
| AmanPlugInModel.UpsertSpec | euroscope-bridge/Aman/AmanPlugIn.cpp:120-139 | a request whose id is subscribed replaces the first subscription with that id, in place, leaving every other one; a new id is appended at the end |
| AmanPlugInModel.UpsertKeepsIdsDistinct | euroscope-bridge/Aman/AmanPlugIn.cpp:120-139 | after a request the id is subscribed, and subscriptions with distinct ids stay distinct |
| AmanPlugInModel.RemoveFirstSpec | euroscope-bridge/Aman/AmanPlugIn.cpp:156-163 | an unknown id changes nothing; otherwise exactly the first subscription with the id is erased and the rest keep their order; with distinct ids the id is gone afterwards |
| AmanPlugInModel.RemoveFirstDistinct | euroscope-bridge/Aman/AmanPlugIn.cpp:156-163 | erasing the subscription with an id, among distinct ids, leaves no subscription with it and the rest distinct |
| AmanPlugInModel.AmanPlugIn.constructor | euroscope-bridge/Aman/AmanPlugIn.cpp:26-36 | a new plug-in holds no inbound and no outbound subscription |
| AmanPlugInModel.AmanPlugIn.OnRequestInboundsForFix | euroscope-bridge/Aman/AmanPlugIn.cpp:120-139 | the inbound subscriptions become the request upserted by its id; outbound subscriptions are untouched |
| AmanPlugInModel.AmanPlugIn.OnRequestOutboundsFromAirport | euroscope-bridge/Aman/AmanPlugIn.cpp:141-154 | the outbound subscriptions become the request upserted by its id; inbound subscriptions are untouched |
| AmanPlugInModel.AmanPlugIn.OnUnsubscribe | euroscope-bridge/Aman/AmanPlugIn.cpp:156-163 | only the first inbound subscription with the id is erased; outbound subscriptions are untouched |
| AmanPlugInModel.FixIndexByName | euroscope-bridge/Aman/AmanPlugIn.cpp:61-68 | the index of the first route point with the name, or -1 exactly when no point has it |
| AmanPlugInModel.FirstViaFixIndex | euroscope-bridge/Aman/AmanPlugIn.cpp:70-77 | the index of the first via fix that lies on the route, or -1 exactly when none does |
| AmanPlugInModel.ViaFix | euroscope-bridge/Aman/AmanPlugIn.cpp:284 | `viaFixes.at` fails exactly when no via fix lies on the route; otherwise the fix it yields is a via fix on the route |
| AmanPlugInModel.FindFirstNotOf | euroscope-bridge/Aman/AmanPlugIn.cpp:113 | the first position from the start that is not the delimiter, or the end when only delimiters follow |
| AmanPlugInModel.FindFrom | euroscope-bridge/Aman/AmanPlugIn.cpp:114 | the first delimiter from the start, or the end when there is none |
| AmanPlugInModel.TokensSpec | euroscope-bridge/Aman/AmanPlugIn.cpp:109-118 | every token is non-empty and free of the delimiter, and the tokens joined give the string with its delimiters removed |
| AmanPlugInModel.SplitString | euroscope-bridge/Aman/AmanPlugIn.cpp:109-118 | the loop yields exactly the maximal runs of non-delimiter characters, in order |
| AmanPlugInModel.TokensNext | euroscope-bridge/Aman/AmanPlugIn.cpp:113-115 | one loop turn takes off exactly the next token |
| AmanPlugInModel.TokensDone | euroscope-bridge/Aman/AmanPlugIn.cpp:113 | when only delimiters remain, no token is left |
| AmanPlugInModel.SkipDelimiters | euroscope-bridge/Aman/AmanPlugIn.cpp:113 | skipping delimiters does not change the tokens |
| AmanPlugInModel.TokenAt | euroscope-bridge/Aman/AmanPlugIn.cpp:114-115 | a run of non-delimiters ended by a delimiter or the end is the next token |
| AmanPlugInModel.Band | euroscope-bridge/Aman/AmanPlugIn.cpp:245 | the altitude floored to a multiple of 5000 ft: the band contains the altitude |
| AmanPlugInModel.SecondsInBand | euroscope-bridge/Aman/AmanPlugIn.cpp:249-252 | descending below the band floor, the seconds still spent in the band are between 0 and 59 |
| AmanPlugInModel.ProfileBands | euroscope-bridge/Aman/AmanPlugIn.cpp:237-272 | the profile has one section per 5000 ft band the samples start in, each spanning its band |
| AmanPlugInModel.StepAsWrittenBands | euroscope-bridge/Aman/AmanPlugIn.cpp:265-271 | one sample adds the band it starts in and keeps every section spanning its band |
| AmanPlugInModel.BandsSnoc | euroscope-bridge/Aman/AmanPlugIn.cpp:237-245 | the bands after one more sample are those before plus the sample's own band |
| AmanPlugInModel.TotalRemove | euroscope-bridge/Aman/AmanPlugIn.cpp:268 | the total seconds of a profile split into one band's seconds and the rest |
| AmanPlugInModel.TotalCredit | euroscope-bridge/Aman/AmanPlugIn.cpp:265-271 | crediting seconds to a band, new or present, raises the total by exactly those seconds |
| AmanPlugInModel.CrossingLosesAMinute | euroscope-bridge/Aman/AmanPlugIn.cpp:249-263 | as written, a descent 6000, 4000, 3000 ft over two minutes records only 60 seconds, because the sample after a crossing drops its own minute; a descent 11000, 9000, 4000 ft records 78 seconds, because the second crossing overwrites the first one's rest and the last rest is dropped |
| AmanPlugInModel.SampledAsWrittenBounded | euroscope-bridge/Aman/AmanPlugIn.cpp:237-272 | as written, every sample credits at most one minute, so the sections never hold more than the trajectory lasts |
| AmanPlugInModel.StepCorrectedTotal | euroscope-bridge/Aman/AmanPlugIn.cpp:249-271 | corrected, each sample adds exactly 60 seconds to the recorded total plus the carried rest |
| AmanPlugInModel.SampledCorrectedTotal | euroscope-bridge/Aman/AmanPlugIn.cpp:237-272 | corrected, after k samples the recorded seconds plus the carried rest are 60 k |
| AmanPlugInModel.CorrectedProfileTotal | euroscope-bridge/Aman/AmanPlugIn.cpp:237-272 | corrected, the profile accounts for one minute per prediction interval |
| AmanPlugInModel.SampleVerticalProfile | euroscope-bridge/Aman/AmanPlugIn.cpp:237-272 | the loop computes the profile as written: one section per band a sample starts in, keyed by and spanning its band, with no more seconds in all than one minute per prediction interval |
| AmanPlugInModel.CollectFails | euroscope-bridge/Aman/AmanPlugIn.cpp:187-301 | collection fails (`viaFixes.at(-1)` throws) exactly when some included target has no via fix on its route |
| AmanPlugInModel.CollectReports | euroscope-bridge/Aman/AmanPlugIn.cpp:187-301 | when it succeeds, one report per target passing the speed, fix and destination filter, in radar-target order, each with the profile sampled as written |
| AmanPlugInModel.CollectReportsStep | euroscope-bridge/Aman/AmanPlugIn.cpp:187-301 | one more target keeps the reports equal to the filtered targets mapped to reports |
| AmanPlugInModel.CollectStep | euroscope-bridge/Aman/AmanPlugIn.cpp:187-301 | one loop turn skips an excluded target, fails on a target without via fix, and otherwise appends its report |
| AmanPlugInModel.NoneStaysNone | euroscope-bridge/Aman/AmanPlugIn.cpp:284 | once a target has thrown, the whole collection fails |
| AmanPlugInModel.CollectAircraft | euroscope-bridge/Aman/AmanPlugIn.cpp:187-301 | the radar-target loop computes the collection function |
| AmanPlugInModel.Reverse | euroscope-bridge/Aman/AmanPlugIn.cpp:304 | the reversed list has the same length, element i being element n-1-i |
| AmanPlugInModel.SpacedSpec | euroscope-bridge/Aman/AmanPlugIn.cpp:305-310 | spacing changes only seconds-behind-preceding: each aircraft gets its ETA minus the next one's, and the last is untouched |
| AmanPlugInModel.SpacedCallsigns | euroscope-bridge/Aman/AmanPlugIn.cpp:305-310 | spacing keeps the callsigns in order |
| AmanPlugInModel.ReverseCallsigns | euroscope-bridge/Aman/AmanPlugIn.cpp:304 | the callsigns of the reversed list are the reversed callsigns |
| AmanPlugInModel.ArrangeSpec | euroscope-bridge/Aman/AmanPlugIn.cpp:302-311 | sorting, reversing and spacing keep every aircraft once; each is behind the next by the difference of their ETAs and the last keeps its 0 |
| AmanPlugInModel.ArrangeCallsigns | euroscope-bridge/Aman/AmanPlugIn.cpp:302-311 | arranging is a permutation of the callsigns |
| AmanPlugInModel.ArrangeLast | euroscope-bridge/Aman/AmanPlugIn.cpp:302-311 | the last arranged aircraft is one of the collected ones, unchanged |
| AmanPlugInModel.ArrangeEtas | euroscope-bridge/Aman/AmanPlugIn.cpp:302-311 | the arranged ETAs are those of the sorted list reversed |
| AmanPlugInModel.ReverseSortedByEta | euroscope-bridge/Aman/AmanPlugIn.cpp:303-304 | a list sorted by ETA, reversed, is latest first |
| AmanPlugInModel.ArrangeByEta | euroscope-bridge/Aman/AmanPlugIn.cpp:302-311 | ordered by ETA, aircraft end up latest first and none is a negative number of seconds behind |
| AmanPlugInModel.ArrangeSpacingByEta | euroscope-bridge/Aman/AmanPlugIn.cpp:305-310 | ordered by ETA, every seconds-behind-preceding is non-negative |
| AmanPlugInModel.MadeCallsigns | euroscope-bridge/Aman/AmanPlugIn.cpp:277-291 | each report keeps its target's callsign and starts 0 seconds behind |
| AmanPlugInModel.SpacingPass | euroscope-bridge/Aman/AmanPlugIn.cpp:305-310 | the loop over neighbours computes the spacing function |
| AmanPlugInModel.InboundsSpec | euroscope-bridge/Aman/AmanPlugIn.cpp:180-314 | fails exactly when an included target lacks a via fix; otherwise one aircraft per included target (as a multiset of callsigns), each behind the next by the ETA difference, the last at 0 |
| AmanPlugInModel.GetInboundsForFix | euroscope-bridge/Aman/AmanPlugIn.cpp:180-314 | collection then arrangement computes the inbound function |
| AmanPlugInModel.LeadingDigits | euroscope-bridge/Aman/AmanPlugIn.cpp:354 | the longest prefix of decimal digits |
| AmanPlugInModel.Stoi | euroscope-bridge/Aman/AmanPlugIn.cpp:354-355 | `std::stoi` answers only values that fit a 32-bit int |
| AmanPlugInModel.ReadSigned | euroscope-bridge/Aman/AmanPlugIn.cpp:354-355 | a signed leading number answers only values that fit a 32-bit int |
| AmanPlugInModel.StoiOfDigits | euroscope-bridge/Aman/AmanPlugIn.cpp:354-355 | a string starting with digits reads as the value of its leading digits |
| AmanPlugInModel.ReadDigits | euroscope-bridge/Aman/AmanPlugIn.cpp:354-355 | unsigned leading digits read as their value |
| AmanPlugInModel.StoiDigit | euroscope-bridge/Aman/AmanPlugIn.cpp:354-355 | one digit followed by a non-digit reads as that digit |
| AmanPlugInModel.Pad2Reads | euroscope-bridge/Aman/AmanPlugIn.cpp:354-355 | a zero-padded two-digit field reads back as its number |
| AmanPlugInModel.DayStart | euroscope-bridge/Aman/AmanPlugIn.cpp:362-366 | the UTC midnight at or before now |
| AmanPlugInModel.DepartureTimeInDay | euroscope-bridge/Aman/AmanPlugIn.cpp:345-381 | the result is -1 or a whole minute of the current UTC day |
| AmanPlugInModel.MinuteOfDay | euroscope-bridge/Aman/AmanPlugIn.cpp:369-374 | an hour below 24 and a minute below 60 give a whole minute of the day |
| AmanPlugInModel.DepartureTimeOfDigits | euroscope-bridge/Aman/AmanPlugIn.cpp:345-381 | a valid HHMM gives the current UTC day's midnight plus that hour and minute |
| AmanPlugInModel.DepartureTimeRejectsHour | euroscope-bridge/Aman/AmanPlugIn.cpp:358-359 | an hour of 24 or more gives -1 |
| AmanPlugInModel.DepartureTimeLenient | euroscope-bridge/Aman/AmanPlugIn.cpp:354 | a single hour digit followed by a non-digit is still accepted, as `std::stoi` stops at it |
| AmanServerModel.CString | euroscope-bridge/Aman/AmanServer.cpp:139-140 | appending a received chunk as a C string keeps exactly its prefix before the first NUL |
| AmanServerModel.FramingLosesNothing | euroscope-bridge/Aman/AmanServer.cpp:143-155 | the complete messages and the kept remainder, joined by newlines, are the received data; none of them contains a newline |
| AmanServerModel.JoinSplit | euroscope-bridge/Aman/AmanServer.cpp:143-155 | the pieces at newlines, joined by newlines, are the data |
| AmanServerModel.PiecesAtNewline | euroscope-bridge/Aman/AmanServer.cpp:144-146 | one extraction takes the text before the first newline as a message and continues after it |
| AmanServerModel.PiecesNoNewline | euroscope-bridge/Aman/AmanServer.cpp:144 | without a newline no message is extracted and all data is kept |
| AmanServerModel.FramingComposes | euroscope-bridge/Aman/AmanServer.cpp:136-155 | framing the data received so far and then framing its remainder with the next chunk gives the same messages as framing everything at once |
| AmanServerModel.PiecesCompose | euroscope-bridge/Aman/AmanServer.cpp:136-155 | the pieces of appended data are the earlier messages followed by the pieces of the remainder plus the chunk |
| AmanServerModel.RestIsOnePiece | euroscope-bridge/Aman/AmanServer.cpp:144 | the kept remainder holds no further message |
| AmanServerModel.FrameStep | euroscope-bridge/Aman/AmanServer.cpp:144-154 | one turn of the inner loop extracts the next message and passes it on only when it is non-empty |
| AmanServerModel.FrameDone | euroscope-bridge/Aman/AmanServer.cpp:144 | when no newline is left, all messages have been extracted and the buffer is the remainder |
| AmanServerModel.WireRoundTrip | euroscope-bridge/Aman/AmanServer.cpp:192-193 | messages without newlines, each sent with a newline appended, are framed back into exactly those messages with nothing left over |
| AmanServerModel.DataRun | euroscope-bridge/Aman/AmanServer.cpp:136-166 | the length of the leading run of successful receives: the loop stops at the first close or error |
| AmanServerModel.AmanServer.constructor | euroscope-bridge/Aman/AmanServer.cpp:15-37 | the server runs, with its sender, exactly when Winsock started; no client is connected and no message is queued, handled or sent |
| AmanServerModel.AmanServer.Accept | euroscope-bridge/Aman/AmanServer.cpp:98-118 | an accepted client is connected with a valid socket |
| AmanServerModel.AmanServer.EndSession | euroscope-bridge/Aman/AmanServer.cpp:123-128 | after a session the client is disconnected and its socket closed |
| AmanServerModel.AmanServer.Stop | euroscope-bridge/Aman/AmanServer.cpp:39-67 | stopping a running server leaves it stopped with the client disconnected and its socket closed; a stopped server is unchanged |
| AmanServerModel.AmanServer.EnqueueMessage | euroscope-bridge/Aman/AmanServer.cpp:216-232 | a message is queued at the back exactly when the server runs and a client is connected; otherwise it is dropped |
| AmanServerModel.AmanServer.FrameMessages | euroscope-bridge/Aman/AmanServer.cpp:143-155 | every complete non-empty message is handled in order, and the remainder after the last newline is kept |
| AmanServerModel.AmanServer.HandleClientConnection | euroscope-bridge/Aman/AmanServer.cpp:132-167 | without a connected client nothing is read; otherwise every complete non-empty line of the data received before the first close or error is handled in order, the partial line is kept, and only a graceful close notifies a disconnection |
| AmanServerModel.ReceiveStep | euroscope-bridge/Aman/AmanServer.cpp:137-155 | one more received chunk adds exactly the messages completed by the kept remainder plus that chunk |
| AmanServerModel.AmanServer.SenderWakeUp | euroscope-bridge/Aman/AmanServer.cpp:172-210 | with a connected client the queue is sent in order up to the first failing send, which is taken off the queue but not delivered and disconnects the client; the sender keeps running exactly while the server runs and the client stays connected |
| CoordinationServer.Parts | server/src/server.ts:39-40 | one numeric part per dot-separated piece of the version, so never none |
| CoordinationServer.CompareFrom | server/src/server.ts:42-50 | the comparison from a position on is -1, 0 or 1 |
| CoordinationServer.CompareZeroIffSame | server/src/server.ts:42-50 | two versions compare equal from a position exactly when every part from there on is equal, a missing part counting as 0 |
| CoordinationServer.CompareAntisymmetric | server/src/server.ts:42-50 | swapping the versions negates the comparison |
| CoordinationServer.NotAboveAt | server/src/server.ts:46-47 | not above means the part here is not above, and on equal parts the rest is not above either |
| CoordinationServer.CompareTransitive | server/src/server.ts:42-50 | not above is transitive |
| CoordinationServer.VersionOrderIsPreorder | server/src/server.ts:38-51 | version comparison is antisymmetric and transitive, and 0 exactly for versions equal part by part |
| CoordinationServer.TrailingZeroPart | server/src/server.ts:43-44 | a trailing ".0" does not change a version |
| CoordinationServer.CompareVersions | server/src/server.ts:38-51 | the loop over parts computes the version order |
| CoordinationServer.ToUpper | server/src/server.ts:55 | upper-casing maps each character and keeps the length |
| CoordinationServer.IsValidIcao | server/src/server.ts:54-56 | an ICAO code is valid exactly when it has four letters of either case |
| CoordinationServer.ValidIcaoKey | server/src/server.ts:332-335 | upper-casing keeps validity, gives a key of four capital letters, and is idempotent |
| CoordinationServer.MarkStart | server/src/server.ts:228-230 | a first start time is recorded for a new session and an existing non-zero one is kept; other sessions are untouched |
| CoordinationServer.InstalledHoldsLease | server/src/server.ts:223-232 | a session that acquires the role is the active master for the next 30 seconds, and every other airport keeps its master |
| CoordinationServer.NoTakeoverWhileActive | server/src/server.ts:216-221 | a master whose heartbeat is younger than 30 seconds is active, so no other session can take its role |
| CoordinationServer.RefreshOnlyByMaster | server/src/server.ts:340-349 | a GET refreshes the heartbeat only of the session that is master of that airport, making it active; any other caller changes no lease |
| CoordinationServer.StatusCode | server/src/server.ts:365-432 | the role routes answer only 200, 400, 403, 404 or 409 |
| CoordinationServer.ReleaseSpec | server/src/server.ts:413-444 | 404 exactly when the airport has no master, 403 exactly when another session is master; only the master releases, which removes the role, its heartbeat and its start time and keeps every other airport's master |
| CoordinationServer.ReleaseOrphansOtherAirports | server/src/server.ts:434-437 | a master of two airports releasing one loses its heartbeat, so its other role is no longer active and yet survives the heartbeat cleanup |
| CoordinationServer.ExpireLeasesSpec | server/src/server.ts:173-190 | the cleanup keeps exactly the heartbeats at most a minute old, drops only roles whose master's heartbeat was dropped, and never removes an active master |
| CoordinationServer.ExpireActivitySpec | server/src/server.ts:193-203 | the cleanup keeps exactly the clients active in the last five minutes, with their start times |
| CoordinationServer.ExpireLeasesBy | server/src/server.ts:177-189 | dropping the stale sessions one by one equals dropping them all at once |
| CoordinationServer.ExpireActivityBy | server/src/server.ts:197-202 | dropping stale clients one by one equals dropping them all at once |
| CoordinationServer.CachedVersionSpec | server/src/server.ts:82-96 | a fresh cached version is kept; a stale one is replaced by a fetched version, which is then fresh; a failed fetch keeps the cache; a known version stays known |
| CoordinationServer.TagVersion | server/src/server.ts:76-79 | a tag starting with "v" loses exactly that "v"; any other tag is kept |
| CoordinationServer.CompatMonotone | server/src/server.ts:508-513 | a newer client never gets a worse status, and "OK" means at least the minimum and the latest |
| CoordinationServer.Server.constructor | server/src/server.ts:26-35 | a new server holds no role, heartbeat, start time or activity, and an empty cache |
| CoordinationServer.Server.UpdateClientActivity | server/src/server.ts:249-259 | records the activity of a present session and leaves the leases and the cache |
| CoordinationServer.Server.AcquireMasterRole | server/src/server.ts:209-233 | acquires exactly when no master is active for the airport, then installs the caller with a fresh heartbeat; otherwise nothing changes |
| CoordinationServer.Server.UpdateHeartbeat | server/src/server.ts:236-246 | a non-empty session gets a heartbeat now and a start time if it had none; roles are untouched |
| CoordinationServer.Server.GetMasterRole | server/src/server.ts:331-359 | 400 for an invalid ICAO with nothing changed; otherwise the caller's activity is touched, its heartbeat refreshed only if it is master, and it is told the master and whether it is that master |
| CoordinationServer.Server.PostMasterRole | server/src/server.ts:361-394 | 400 for an invalid ICAO or a missing session; otherwise 200 exactly when no master is active, installing the caller, and 409 leaving the leases |
| CoordinationServer.Server.DeleteMasterRole | server/src/server.ts:396-445 | 400 for an invalid ICAO or a missing session; otherwise the reply and the leases are those of the release |
| CoordinationServer.Server.DropRolesOf | server/src/server.ts:183-187 | removes every role held by the session |
| CoordinationServer.Server.CleanupOldHeartbeats | server/src/server.ts:173-190 | the leases become the expired leases; client activity and cache stay |
| CoordinationServer.Server.VisitSession | server/src/server.ts:177-189 | one session visited: if stale, it is dropped from heartbeats, start times and roles |
| CoordinationServer.Server.CleanupOldClientActivity | server/src/server.ts:193-203 | client activity becomes the expired activity; leases and cache stay |
| CoordinationServer.Server.VisitClient | server/src/server.ts:197-202 | one client visited: if stale, it is dropped with its start time |
| CoordinationServer.Server.GetLatestVersionCached | server/src/server.ts:82-96 | the cache follows the caching rule and the version answered is the cached one |
| CoordinationServer.Server.CompatRoute | server/src/server.ts:495-522 | 500 when no latest version is known; otherwise the latest, the minimum 0.3.1 and the status of the client's version, 0.0.0 when absent |
| CoordinationServer.SimpleCompatNeverAnswers | server/simple-server.js:443-448 | as written the compat route calls a comparison the file never defines, so it never reports a status and throws once a latest version is known |
| CoordinationServer.SimpleCompatAnswers | server/simple-server.js:432-448 | with the comparison defined, a known latest version always gives an answer; "ok" only for a client at least 1.2.0 and the latest; a newer client never gets a worse word |
| RunwayModeStateModel.ActiveArrivalRunwaysSpec | aman-dman-client/controller/src/main/kotlin/no/vaccsca/amandman/controller/RunwayModeState.kt:19 | the active arrival runways are sorted, are exactly the runways whose status takes arrivals, and are listed once each |
| RunwayModeStateModel.SpacingTextReadsBack | aman-dman-client/controller/src/main/kotlin/no/vaccsca/amandman/controller/RunwayModeState.kt:39 | the spacing is printed as digits, a point and one digit that read back as the spacing in tenths |
| RunwayModeStateModel.FormatLabel | aman-dman-client/controller/src/main/kotlin/no/vaccsca/amandman/controller/RunwayModeState.kt:30-42 | a mode label is active exactly when the mode names an active arrival runway; a mode starting with "S" is shown as it is, any other followed by a colon and the spacing |
| RunwayModeStateModel.DisplayLabels | aman-dman-client/controller/src/main/kotlin/no/vaccsca/amandman/controller/RunwayModeState.kt:18-43 | the airport label, then the mode label, then one formatted label per runway mode in order |
| RunwayModeStateModel.PresenterDisplayLabels | aman-dman-client/presenter/src/main/kotlin/no/vaccsca/amandman/presenter/RunwayModeState.kt:18-32 | the presenter's labels; with no arrival runway the mode label is an inactive "NO ACT RWY", otherwise it is active |
| RunwayModeStateModel.ControllerDisplayLabels | aman-dman-client/controller/src/main/kotlin/no/vaccsca/amandman/controller/RunwayModeState.kt:18-43 | the controller's labels; with no arrival runway the mode label is an inactive "No active runway", otherwise it is active |
| RunwayModeStateModel.ModeLabelCases | aman-dman-client/controller/src/main/kotlin/no/vaccsca/amandman/controller/RunwayModeState.kt:22-27 | no arrival runway gives the inactive fallback, one gives "S" and its name, several give "M" and their sorted names joined by "/" |
| RunwayModeStateModel.FormatLabelActivity | aman-dman-client/controller/src/main/kotlin/no/vaccsca/amandman/controller/RunwayModeState.kt:31-33 | a mode label is active exactly when some runway of the status map takes arrivals and is named in the mode |
| RunwayModeStateModel.LabelsIgnoreMapOrder | aman-dman-client/controller/src/main/kotlin/no/vaccsca/amandman/controller/RunwayModeState.kt:19 | the labels depend only on which runways take arrivals, not on the order of the status map |
| RunwayModeStateManagerModel.GroupByDirection | aman-dman-client/controller/src/main/kotlin/no/vaccsca/amandman/controller/RunwayModeStateManager.kt:55 | grouping runway names by their first two characters gives one group per direction |
| RunwayModeStateManagerModel.ModesLength | aman-dman-client/controller/src/main/kotlin/no/vaccsca/amandman/controller/RunwayModeStateManager.kt:56-58 | the inferred modes are every runway plus one combined mode per direction with more than one runway |
| RunwayModeStateManagerModel.SizePut | aman-dman-client/controller/src/main/kotlin/no/vaccsca/amandman/controller/RunwayModeStateManager.kt:55 | replacing a group changes the total size by the difference of the group sizes |
| RunwayModeStateManagerModel.GroupSize | aman-dman-client/controller/src/main/kotlin/no/vaccsca/amandman/controller/RunwayModeStateManager.kt:55 | grouping keeps every runway name once |
| RunwayModeStateManagerModel.GroupMembers | aman-dman-client/controller/src/main/kotlin/no/vaccsca/amandman/controller/RunwayModeStateManager.kt:55 | each group holds only runways of its direction, and every runway is in a group |
| RunwayModeStateManagerModel.GroupDirections | aman-dman-client/controller/src/main/kotlin/no/vaccsca/amandman/controller/RunwayModeStateManager.kt:55 | each group holds only runways of its direction |
| RunwayModeStateManagerModel.GroupCovers | aman-dman-client/controller/src/main/kotlin/no/vaccsca/amandman/controller/RunwayModeStateManager.kt:55 | every runway lands in some group |
| RunwayModeStateManagerModel.ModesContainGroups | aman-dman-client/controller/src/main/kotlin/no/vaccsca/amandman/controller/RunwayModeStateManager.kt:56-58 | every grouped runway is among the inferred modes |
| RunwayModeStateManagerModel.InferPossibleRunwayModesSpec | aman-dman-client/controller/src/main/kotlin/no/vaccsca/amandman/controller/RunwayModeStateManager.kt:53-59 | the modes are as many as the runways plus the combined groups, every runway is offered as a mode, and each group holds only its direction's runways |
| RunwayModeStateManagerModel.WithSpacingKeepsAirports | aman-dman-client/controller/src/main/kotlin/no/vaccsca/amandman/controller/RunwayModeStateManager.kt:28-34 | a new spacing keeps the airports and their order, and keeps each airport's modes inferred from its statuses |
| RunwayModeStateManagerModel.RefreshChangesNoState | aman-dman-client/controller/src/main/kotlin/no/vaccsca/amandman/controller/RunwayModeStateManager.kt:39-46 | refreshing states whose modes are already inferred from their statuses changes no state |
| RunwayModeStateManagerModel.RunwayModeStateManager.constructor | aman-dman-client/controller/src/main/kotlin/no/vaccsca/amandman/controller/RunwayModeStateManager.kt:10-12 | a new manager holds no airport state and has sent no view update |
| RunwayModeStateManagerModel.RunwayModeStateManager.UpdateView | aman-dman-client/controller/src/main/kotlin/no/vaccsca/amandman/controller/RunwayModeStateManager.kt:48-51 | the view receives the airport's controller labels; the states are unchanged |
| RunwayModeStateManagerModel.RunwayModeStateManager.UpdateRunwayStatuses | aman-dman-client/controller/src/main/kotlin/no/vaccsca/amandman/controller/RunwayModeStateManager.kt:17-23 | the airport's state becomes the given statuses and spacing with the inferred modes, put in the map, and its labels are sent to the view |
| RunwayModeStateManagerModel.RunwayModeStateManager.UpdateMinimumSpacing | aman-dman-client/controller/src/main/kotlin/no/vaccsca/amandman/controller/RunwayModeStateManager.kt:28-34 | every airport gets the new spacing, in map order, and the view receives each airport's labels in that order |
| RunwayModeStateManagerModel.RunwayModeStateManager.SetSpacingAt | aman-dman-client/controller/src/main/kotlin/no/vaccsca/amandman/controller/RunwayModeStateManager.kt:29-33 | one loop turn updates the next airport's spacing and sends its labels |
| RunwayModeStateManagerModel.RunwayModeStateManager.RefreshAllStates | aman-dman-client/controller/src/main/kotlin/no/vaccsca/amandman/controller/RunwayModeStateManager.kt:39-46 | every airport's modes are re-inferred from its statuses, in map order, and the view receives each airport's labels |
| RunwayModeStateManagerModel.RunwayModeStateManager.RefreshAt | aman-dman-client/controller/src/main/kotlin/no/vaccsca/amandman/controller/RunwayModeStateManager.kt:40-45 | one loop turn re-infers the next airport's modes and sends its labels |
| RunwayModeStateManagerModel.WithSpacingStep | aman-dman-client/controller/src/main/kotlin/no/vaccsca/amandman/controller/RunwayModeStateManager.kt:29-33 | putting the next airport's respaced state extends the respaced prefix by one, and its view update extends the views |
| RunwayModeStateManagerModel.RefreshedStep | aman-dman-client/controller/src/main/kotlin/no/vaccsca/amandman/controller/RunwayModeStateManager.kt:40-45 | putting the next airport's refreshed state extends the refreshed prefix by one, and its view update extends the views |
| RunwayModeStateManagerModel.PutKeepsConsistent | aman-dman-client/controller/src/main/kotlin/no/vaccsca/amandman/controller/RunwayModeStateManager.kt:17-23 | putting a state whose modes are inferred from its statuses keeps every airport's modes inferred |
| NavdataServiceModel.ParseAll | aman-dman-client/service/src/main/kotlin/NavdataService.kt:59-76 | parsing every item succeeds with one result per item |
| NavdataServiceModel.ParseAllSpec | aman-dman-client/service/src/main/kotlin/NavdataService.kt:41-80 | parsing a list succeeds exactly when every item parses, giving their results in order; otherwise it fails with the error of the first item that fails |
| NavdataServiceModel.ParseAllOk | aman-dman-client/service/src/main/kotlin/NavdataService.kt:41-80 | items that each parse to a result give the list of those results |
| NavdataServiceModel.ParseAllFailedPrefix | aman-dman-client/service/src/main/kotlin/NavdataService.kt:47 | once a prefix has failed, the whole list fails with the same error |
| NavdataServiceModel.ParseAllStep | aman-dman-client/service/src/main/kotlin/NavdataService.kt:41 | one more item extends the results or fails with its error |
| NavdataServiceModel.ParseAllAppend | aman-dman-client/service/src/main/kotlin/NavdataService.kt:41-80 | parsing two lists that both succeed gives their results concatenated |
| NavdataServiceModel.ParseEach | aman-dman-client/service/src/main/kotlin/NavdataService.kt:59-76 | the loop over items computes the list parse, stopping at the first failure |
| NavdataServiceModel.CleanLines | aman-dman-client/service/src/main/kotlin/NavdataService.kt:21 | the kept lines are non-empty and trimmed, and no more than the input lines |
| NavdataServiceModel.Lines | aman-dman-client/service/src/main/kotlin/NavdataService.kt:21 | every line kept is non-empty and trimmed |
| NavdataServiceModel.LinesRoundTrip | aman-dman-client/service/src/main/kotlin/NavdataService.kt:21 | trimmed non-empty lines joined by newlines are read back as exactly those lines |
| NavdataServiceModel.Words | aman-dman-client/service/src/main/kotlin/NavdataService.kt:23 | the words of a line are non-empty and hold no white space |
| NavdataServiceModel.HeaderFields | aman-dman-client/service/src/main/kotlin/NavdataService.kt:23 | a matched header yields an identifier word and the elevation digits |
| NavdataServiceModel.ToInt | aman-dman-client/service/src/main/kotlin/NavdataService.kt:50 | digits convert exactly when their value fits an Int, to that value; otherwise a number format error naming them |
| NavdataServiceModel.ParseHeader | aman-dman-client/service/src/main/kotlin/NavdataService.kt:45-50 | a line that does not match the header pattern fails naming the line; a parsed header has an identifier word and an elevation that fits an Int |
| NavdataServiceModel.HeaderRoundTrip | aman-dman-client/service/src/main/kotlin/NavdataService.kt:23-50 | a header line written from an identifier, an elevation, an airport and a runway parses back to that identifier and elevation |
| NavdataServiceModel.LastColon | aman-dman-client/service/src/main/kotlin/NavdataService.kt:24 | the last colon at or before a position, if any |
| NavdataServiceModel.LastColonIsLast | aman-dman-client/service/src/main/kotlin/NavdataService.kt:24 | no colon lies between the one found and the position; none found means none at all |
| NavdataServiceModel.FixLineFieldsShape | aman-dman-client/service/src/main/kotlin/NavdataService.kt:24 | a matched fix line is its identifier, a colon, optional white space and the constraint text, which ends the line |
| NavdataServiceModel.FixLineFieldsRoundTrip | aman-dman-client/service/src/main/kotlin/NavdataService.kt:24 | an identifier, ": " and a constraint text starting with no space match back as that identifier and text |
| NavdataServiceModel.OperatorRun | aman-dman-client/service/src/main/kotlin/NavdataService.kt:25 | the greedy run of "<", ">" and "=" at the start of the text |
| NavdataServiceModel.ConstraintFields | aman-dman-client/service/src/main/kotlin/NavdataService.kt:25 | a matched constraint is "alt" or "spd", a non-empty operator and digits, and is exactly their concatenation |
| NavdataServiceModel.ParseConstraint | aman-dman-client/service/src/main/kotlin/NavdataService.kt:60-75 | a text not matching the constraint pattern fails naming it; otherwise it parses exactly when the operator is "=", "<=" or ">=", to its kind and value, and any other operator fails naming it |
| NavdataServiceModel.ConstraintRoundTrip | aman-dman-client/service/src/main/kotlin/NavdataService.kt:60-75 | a constraint written out parses back to itself |
| NavdataServiceModel.TrimAll | aman-dman-client/service/src/main/kotlin/NavdataService.kt:55 | each piece trimmed, in order |
| NavdataServiceModel.FixLine | aman-dman-client/service/src/main/kotlin/NavdataService.kt:52-78 | a line not matching the fix pattern fails naming the line; a parsed fix carries the matched identifier |
| NavdataServiceModel.FixLineRoundTrip | aman-dman-client/service/src/main/kotlin/NavdataService.kt:41-78 | a fix line written from a fix parses back to that fix |
| NavdataServiceModel.ConstraintListRoundTrip | aman-dman-client/service/src/main/kotlin/NavdataService.kt:55-76 | constraints joined by commas split and parse back to the same constraints |
| NavdataServiceModel.CommaJoinSplits | aman-dman-client/service/src/main/kotlin/NavdataService.kt:55 | clean texts joined by commas split back to the same texts |
| NavdataServiceModel.FixRun | aman-dman-client/service/src/main/kotlin/NavdataService.kt:41-80 | the number of fix lines before the next header |
| NavdataServiceModel.LeadingFixes | aman-dman-client/service/src/main/kotlin/NavdataService.kt:41-80 | one fix per fix line before the next header |
| NavdataServiceModel.HeaderItems | aman-dman-client/service/src/main/kotlin/NavdataService.kt:42-50 | only headers are kept |
| NavdataServiceModel.FixRunAppend | aman-dman-client/service/src/main/kotlin/NavdataService.kt:41-80 | the fixes before the first header of joined lists are those of the first list, plus those of the second if the first has no header |
| NavdataServiceModel.GroupSnocHeader | aman-dman-client/service/src/main/kotlin/NavdataService.kt:42-50 | a header closes the star being read and opens a new empty one |
| NavdataServiceModel.GroupSnocFix | aman-dman-client/service/src/main/kotlin/NavdataService.kt:78 | a fix line adds the fix to the last star, or is dropped when no header came before |
| NavdataServiceModel.GroupFollowsHeaders | aman-dman-client/service/src/main/kotlin/NavdataService.kt:32-50 | one star per header, with the header's identifier and elevation, in order |
| NavdataServiceModel.GroupSkipsLeadingFixes | aman-dman-client/service/src/main/kotlin/NavdataService.kt:32-35 | fix lines before the first header belong to no star |
| NavdataServiceModel.StarsFailure | aman-dman-client/service/src/main/kotlin/NavdataService.kt:41-80 | parsing the file fails exactly when some line fails, with the error of the first failing line |
| NavdataServiceModel.ParseFixLine | aman-dman-client/service/src/main/kotlin/NavdataService.kt:52-78 | the fix-line loop over constraints computes the fix parse |
| NavdataServiceModel.ReadHeader | aman-dman-client/service/src/main/kotlin/NavdataService.kt:42-50 | reading a header flushes the open star and opens the new one |
| NavdataServiceModel.ReadFix | aman-dman-client/service/src/main/kotlin/NavdataService.kt:78 | reading a fix appends it to the open star |
| NavdataServiceModel.HeaderLineStep | aman-dman-client/service/src/main/kotlin/NavdataService.kt:42-50 | a header line that does not parse fails the file with its error; one that parses flushes the open star and opens the new one |
| NavdataServiceModel.FixLineStep | aman-dman-client/service/src/main/kotlin/NavdataService.kt:51-79 | a fix line that does not parse fails the file with its error; one that parses extends the open star |
| NavdataServiceModel.ParseStars | aman-dman-client/service/src/main/kotlin/NavdataService.kt:20-84 | the loop with its current-star variables and flush computes the grouping of the parsed lines into stars |
| NavdataServiceModel.FixLines | aman-dman-client/service/src/main/kotlin/NavdataService.kt:52-78 | one line per fix |
| NavdataServiceModel.FixItems | aman-dman-client/service/src/main/kotlin/NavdataService.kt:78 | one fix item per fix, and no header |
| NavdataServiceModel.FileLinesClean | aman-dman-client/service/src/main/kotlin/NavdataService.kt:21 | every written line is non-empty and trimmed, so the line cleaning keeps them all |
| NavdataServiceModel.FileLinesParse | aman-dman-client/service/src/main/kotlin/NavdataService.kt:41-80 | every written line parses, to the headers and fixes of the stars in order |
| NavdataServiceModel.StarLinesParse | aman-dman-client/service/src/main/kotlin/NavdataService.kt:41-80 | a star's written lines parse to its header and fixes |
| NavdataServiceModel.LeadingFixesOfFixItems | aman-dman-client/service/src/main/kotlin/NavdataService.kt:41-80 | a run of fix items gives back the fixes |
| NavdataServiceModel.GroupFileItems | aman-dman-client/service/src/main/kotlin/NavdataService.kt:32-82 | grouping the items of written stars gives back the stars |
| NavdataServiceModel.StarsRoundTrip | aman-dman-client/service/src/main/kotlin/NavdataService.kt:20-84 | a file written from stars whose identifiers, fixes and numbers the patterns accept parses back to exactly those stars |
| NavdataUtilsModel.FindFix | aman-dman-client/model/src/main/kotlin/no/vaccsca/amandman/model/domain/util/NavdataUtils.kt:13 | the STAR fix found has the point's name and is on the STAR; none found means no fix has that name |
| NavdataUtilsModel.IndexOf | aman-dman-client/model/src/main/kotlin/no/vaccsca/amandman/model/domain/util/NavdataUtils.kt:44-45 | the first position of the waypoint on the route, absent exactly when it is not on the route |
| NavdataUtilsModel.NextFrom | aman-dman-client/model/src/main/kotlin/no/vaccsca/amandman/model/domain/util/NavdataUtils.kt:47-54 | the first route position from i on whose STAR fix has a typical speed, or none when no later one has |
| NavdataUtilsModel.PreviousBefore | aman-dman-client/model/src/main/kotlin/no/vaccsca/amandman/model/domain/util/NavdataUtils.kt:65-72 | the last route position before i whose STAR fix has a typical speed, or none when no earlier one has |
| NavdataUtilsModel.NextSpeedExpectation | aman-dman-client/model/src/main/kotlin/no/vaccsca/amandman/model/domain/util/NavdataUtils.kt:43-55 | none for a point off the route; otherwise a route position whose STAR fix has a typical speed |
| NavdataUtilsModel.PreviousSpeedExpectation | aman-dman-client/model/src/main/kotlin/no/vaccsca/amandman/model/domain/util/NavdataUtils.kt:61-73 | none for a point off the route; otherwise a route position whose STAR fix has a typical speed |
| NavdataUtilsModel.DistanceSymmetric | aman-dman-client/model/src/main/kotlin/no/vaccsca/amandman/model/domain/util/NavdataUtils.kt:75-90 | the distance along the route between two points does not depend on which one is given first |
| NavdataUtilsModel.PathLengthSplit | aman-dman-client/model/src/main/kotlin/no/vaccsca/amandman/model/domain/util/NavdataUtils.kt:86-89 | the length along the route splits at any intermediate point |
| NavdataUtilsModel.PathLengthNonNegative | aman-dman-client/model/src/main/kotlin/no/vaccsca/amandman/model/domain/util/NavdataUtils.kt:86-89 | with non-negative legs, the length along the route is non-negative |
| NavdataUtilsModel.Truncate | aman-dman-client/model/src/main/kotlin/no/vaccsca/amandman/model/domain/util/NavdataUtils.kt:36 | `toInt` truncates toward zero |
| NavdataUtilsModel.InterpolateBetween | aman-dman-client/model/src/main/kotlin/no/vaccsca/amandman/model/domain/util/NavdataUtils.kt:33-36 | the interpolated speed lies between the speeds behind and ahead, is the speed ahead at the fix ahead and the speed behind at the fix behind |
| NavdataUtilsModel.Weighted | aman-dman-client/model/src/main/kotlin/no/vaccsca/amandman/model/domain/util/NavdataUtils.kt:36 | the weighted speed lies between the two speeds, and is the speed ahead at ratio 0 and the speed behind at ratio 1 |
| NavdataUtilsModel.RatioInUnit | aman-dman-client/model/src/main/kotlin/no/vaccsca/amandman/model/domain/util/NavdataUtils.kt:33 | the ratio of the distance ahead to the whole distance lies between 0 and 1 |
| NavdataUtilsModel.TruncateBetween | aman-dman-client/model/src/main/kotlin/no/vaccsca/amandman/model/domain/util/NavdataUtils.kt:36 | truncating a value between two integers stays between them |
| NavdataUtilsModel.InterpolatedSpeedCases | aman-dman-client/model/src/main/kotlin/no/vaccsca/amandman/model/domain/util/NavdataUtils.kt:12-37 | the point's own typical speed wins; with no speed ahead the speed behind is used, or none; with a speed ahead but none behind there is none; with both, the result lies between them, or is 0 when both fixes are the point itself |
| TimelineLabelModel.Spaces | aman-dman-client/view/src/main/kotlin/no/vaccsca/amandman/view/airport/timeline/labels/TimelineLabel.kt:119-121 | n space characters |
| TimelineLabelModel.PadStart | aman-dman-client/view/src/main/kotlin/no/vaccsca/amandman/view/airport/timeline/labels/TimelineLabel.kt:120-121 | padding at the start reaches the length and never shortens |
| TimelineLabelModel.PadEnd | aman-dman-client/view/src/main/kotlin/no/vaccsca/amandman/view/airport/timeline/labels/TimelineLabel.kt:119-120 | padding at the end reaches the length and never shortens |
| TimelineLabelModel.FormatText | aman-dman-client/view/src/main/kotlin/no/vaccsca/amandman/view/airport/timeline/labels/TimelineLabel.kt:108-125 | fails (`substring` with a negative end throws) exactly when the maximum length is negative; otherwise the text is exactly the field's width |
| TimelineLabelModel.Shown | aman-dman-client/view/src/main/kotlin/no/vaccsca/amandman/view/airport/timeline/labels/TimelineLabel.kt:109-116 | the value shown is at most the field's maximum number of characters |
| TimelineLabelModel.ShownSource | aman-dman-client/view/src/main/kotlin/no/vaccsca/amandman/view/airport/timeline/labels/TimelineLabel.kt:109-116 | the value shown is the given value cut to the maximum number of characters; with no value and no default it is empty |
| TimelineLabelModel.SpacesAround | aman-dman-client/view/src/main/kotlin/no/vaccsca/amandman/view/airport/timeline/labels/TimelineLabel.kt:118-122 | a text between spaces is placed after the leading spaces |
| TimelineLabelModel.FormatTextShown | aman-dman-client/view/src/main/kotlin/no/vaccsca/amandman/view/airport/timeline/labels/TimelineLabel.kt:118-122 | left or no alignment pads at the end, right pads at the start, centre pads half the spare room at the start and the rest at the end |
| TimelineLabelModel.FormatTextPlacesText | aman-dman-client/view/src/main/kotlin/no/vaccsca/amandman/view/airport/timeline/labels/TimelineLabel.kt:108-125 | the formatted field holds the shown value at the offset its alignment gives, with spaces everywhere else |
| TimelineLabelModel.LeftPadded | aman-dman-client/view/src/main/kotlin/no/vaccsca/amandman/view/airport/timeline/labels/TimelineLabel.kt:119 | padding at the end places the text at 0 |
| TimelineLabelModel.RightPadded | aman-dman-client/view/src/main/kotlin/no/vaccsca/amandman/view/airport/timeline/labels/TimelineLabel.kt:121 | padding at the start places the text at the width minus its length |
| TimelineLabelModel.CenterPadded | aman-dman-client/view/src/main/kotlin/no/vaccsca/amandman/view/airport/timeline/labels/TimelineLabel.kt:120 | centring places the text after half the spare room, rounded down |
| ArrivalLabelModel.Quot | aman-dman-client/view/src/main/kotlin/no/vaccsca/amandman/view/airport/timeline/labels/ArrivalLabel.kt:143 | Kotlin's division truncates toward zero |
| ArrivalLabelModel.Rem | aman-dman-client/view/src/main/kotlin/no/vaccsca/amandman/view/airport/timeline/labels/ArrivalLabel.kt:144 | Kotlin's remainder takes the dividend's sign and completes the truncating division |
| ArrivalLabelModel.NormalizedMinutes | aman-dman-client/view/src/main/kotlin/no/vaccsca/amandman/view/airport/timeline/labels/ArrivalLabel.kt:133-140 | positive seconds round up to whole minutes, negative ones round down, and 0 stays 0 |
| ArrivalLabelModel.NormalizedMinutesOdd | aman-dman-client/view/src/main/kotlin/no/vaccsca/amandman/view/airport/timeline/labels/ArrivalLabel.kt:133-140 | negating the seconds negates the minutes |
| ArrivalLabelModel.FormatTtlTtgValue | aman-dman-client/view/src/main/kotlin/no/vaccsca/amandman/view/airport/timeline/labels/ArrivalLabel.kt:123-131 | empty within 10 seconds either way; above, "+" and the minutes to lose; below, "-" and the minutes to gain |
| ArrivalLabelModel.TtlTtgColor | aman-dman-client/view/src/main/kotlin/no/vaccsca/amandman/view/airport/timeline/labels/ArrivalLabel.kt:116-121 | yellow exactly above 10 seconds to lose, green exactly above 10 seconds to gain, no colour otherwise |
| ArrivalLabelModel.ColorMatchesText | aman-dman-client/view/src/main/kotlin/no/vaccsca/amandman/view/airport/timeline/labels/ArrivalLabel.kt:61-62 | the field has no colour exactly when it is empty, yellow exactly when it shows "+", green exactly when it shows "-" |
| ArrivalLabelModel.TwoDigits | aman-dman-client/view/src/main/kotlin/no/vaccsca/amandman/view/airport/timeline/labels/ArrivalLabel.kt:145 | a non-negative number is printed with at least two digits, zero-padded |
| ArrivalLabelModel.ToHhMm | aman-dman-client/view/src/main/kotlin/no/vaccsca/amandman/view/airport/timeline/labels/ArrivalLabel.kt:142-146 | minutes and seconds, each at least two digits, separated by ":" |
| ArrivalLabelModel.TwoDigitsReadsBack | aman-dman-client/view/src/main/kotlin/no/vaccsca/amandman/view/airport/timeline/labels/ArrivalLabel.kt:145 | a number below 100 is printed as exactly two digits that read back as it |
| ArrivalLabelModel.ToHhMmReadsBack | aman-dman-client/view/src/main/kotlin/no/vaccsca/amandman/view/airport/timeline/labels/ArrivalLabel.kt:142-146 | the last two digits after ":" read back as the seconds within the minute |
| ArrivalLabelModel.TimeBehindPrecedingText | aman-dman-client/view/src/main/kotlin/no/vaccsca/amandman/view/airport/timeline/labels/ArrivalLabel.kt:64-67 | "--:--" exactly when there is no preceding aircraft |
| ArrivalLabelModel.TimeBehindPrecedingRoundedText | aman-dman-client/view/src/main/kotlin/no/vaccsca/amandman/view/airport/timeline/labels/ArrivalLabel.kt:69-72 | "0" with no preceding aircraft; otherwise the normalised minutes |
| ArrivalLabelModel.WakeCatColor | aman-dman-client/view/src/main/kotlin/no/vaccsca/amandman/view/airport/timeline/labels/ArrivalLabel.kt:109-114 | orange exactly for L, yellow exactly for H and J, no colour otherwise |
| ArrivalLabelModel.GroundSpeed10 | aman-dman-client/view/src/main/kotlin/no/vaccsca/amandman/view/airport/timeline/labels/ArrivalLabel.kt:92-93 | the ground speed truncated toward zero to a multiple of ten |
| TabControllerModel.Moved | aman-dman-client/src/main/kotlin/controller/TabController.kt:32-40 | the window either stays or both its ends move by the delta |
| TabControllerModel.StartMoved | aman-dman-client/src/main/kotlin/controller/TabController.kt:42-49 | the window either stays or only its start moves by the delta |
| TabControllerModel.EndMoved | aman-dman-client/src/main/kotlin/controller/TabController.kt:51-58 | the window either stays or only its end moves by the delta |
| TabControllerModel.MovedCases | aman-dman-client/src/main/kotlin/controller/TabController.kt:36 | the window moves exactly when both new ends lie strictly inside the timeline; its width and the timeline never change |
| TabControllerModel.MovedStaysInside | aman-dman-client/src/main/kotlin/controller/TabController.kt:32-40 | a window inside the timeline stays inside it when scrolled |
| TabControllerModel.StartMovedCases | aman-dman-client/src/main/kotlin/controller/TabController.kt:46 | only the start may change; it moves exactly when the new start lies after the timeline start and more than ten minutes before the end, so a moved window is wider than ten minutes |
| TabControllerModel.EndMovedCases | aman-dman-client/src/main/kotlin/controller/TabController.kt:55 | only the end may change; it moves exactly when the new end lies before the timeline end and more than ten minutes after the start, so a moved window is wider than ten minutes |
| TabControllerModel.ResizesStayInside | aman-dman-client/src/main/kotlin/controller/TabController.kt:42-58 | a window inside the timeline stays inside it when either end is dragged |
| TabControllerModel.TabState.constructor | aman-dman-client/src/main/kotlin/model/TabState.kt:10-40 | the tab state holds the given timeline and window |
| TabControllerModel.TabController.constructor | aman-dman-client/src/main/kotlin/controller/TabController.kt:16-20 | the controller works on the given tab state |
| TabControllerModel.TabController.MoveTimeRange | aman-dman-client/src/main/kotlin/controller/TabController.kt:32-40 | the tab's window becomes the scrolled window |
| TabControllerModel.TabController.MoveTimeRangeStart | aman-dman-client/src/main/kotlin/controller/TabController.kt:42-49 | the tab's window becomes the window with its start dragged |
| TabControllerModel.TabController.MoveTimeRangeEnd | aman-dman-client/src/main/kotlin/controller/TabController.kt:51-58 | the tab's window becomes the window with its end dragged |
| TabControllerModel.TabController.OnTimeNowChanged | aman-dman-client/src/main/kotlin/controller/TabController.kt:25-29 | each tick of the clock scrolls the window by one second |
| CdmClientModel.ParseField | aman-dman-client/model/src/main/kotlin/no/vaccsca/amandman/model/data/repository/CdmClient.kt:73-75 | two digits read as their value; a non-digit second character fails; a sign in front may give a single negative digit |
| CdmClientModel.StartOfDay | aman-dman-client/model/src/main/kotlin/no/vaccsca/amandman/model/data/repository/CdmClient.kt:77-78 | the UTC midnight at or before the instant |
| CdmClientModel.ParseHhMmSsTimestamp | aman-dman-client/model/src/main/kotlin/no/vaccsca/amandman/model/data/repository/CdmClient.kt:71-102 | a parsed time needs six leading characters whose hour is 0-23 and minute and second 0-59, and lies no more than one hour before now and less than a day after |
| CdmClientModel.ParsedTimeOfDay | aman-dman-client/model/src/main/kotlin/no/vaccsca/amandman/model/data/repository/CdmClient.kt:71-102 | six digits giving a valid time of day always parse, to an instant at exactly that time of day |
| CdmClientModel.OnDayOffset | aman-dman-client/model/src/main/kotlin/no/vaccsca/amandman/model/data/repository/CdmClient.kt:91-96 | today's or tomorrow's instant for a time of day is at that time of day |
| CdmClientModel.TrailingIgnored | aman-dman-client/model/src/main/kotlin/no/vaccsca/amandman/model/data/repository/CdmClient.kt:73-75 | characters after the sixth are ignored |
| CdmClientModel.ToCdmData | aman-dman-client/model/src/main/kotlin/no/vaccsca/amandman/model/data/repository/CdmClient.kt:54-58 | an absent TTOT or CTOT stays absent, and a present one is parsed as a CDM time |
| DepartureEventServiceModel.ExpectedTime | aman-dman-client/model/src/main/kotlin/no/vaccsca/amandman/model/domain/service/DepartureEventService.kt:9-10 | no CDM list gives no time; otherwise the first CDM entry for the callsign gives its CTOT, or its TTOT when it has no CTOT; no entry gives no time |
| DepartureEventServiceModel.CreateRunwayDepartureEvent | aman-dman-client/model/src/main/kotlin/no/vaccsca/amandman/model/domain/service/DepartureEventService.kt:8-32 | an event exactly when there is an expected time and an assigned runway; it is scheduled and estimated at that time on that runway, and carries the departure's airport, callsign, type, wake category, controller and SID |
| DepartureEventServiceModel.CtotTakesPrecedence | aman-dman-client/model/src/main/kotlin/no/vaccsca/amandman/model/domain/service/DepartureEventService.kt:9-31 | for the first CDM entry of the callsign, a CTOT decides the event; otherwise the TTOT; with neither there is no event |
| DataUpdatesHandlerModel.Send | aman-dman-client/model/src/main/kotlin/no/vaccsca/amandman/model/domain/service/DataUpdatesHandler.kt:51-78 | every update but timeline events is forwarded unchanged; timeline events are forwarded, and the time remembered, exactly when the airport was never sent or was last sent more than two seconds ago, and are dropped otherwise |
| DataUpdatesHandlerModel.SendRemembersOnlySends | aman-dman-client/model/src/main/kotlin/no/vaccsca/amandman/model/domain/service/DataUpdatesHandler.kt:51-59 | the memory changes only when timeline events are sent, and only for their airport |
| DataUpdatesHandlerModel.ThrottlePerAirport | aman-dman-client/model/src/main/kotlin/no/vaccsca/amandman/model/domain/service/DataUpdatesHandler.kt:51-59 | sending one airport's events does not throttle another airport |
| DataUpdatesHandlerModel.SendsSpaced | aman-dman-client/model/src/main/kotlin/no/vaccsca/amandman/model/domain/service/DataUpdatesHandler.kt:53-57 | two sends of the same airport's timeline events are more than two seconds apart |
| DataUpdatesHandlerModel.DataUpdatesServerSender.constructor | aman-dman-client/model/src/main/kotlin/no/vaccsca/amandman/model/domain/service/DataUpdatesHandler.kt:45-49 | a new sender remembers no airport and has sent nothing |
| DataUpdatesHandlerModel.DataUpdatesServerSender.OnUpdate | aman-dman-client/model/src/main/kotlin/no/vaccsca/amandman/model/domain/service/DataUpdatesHandler.kt:51-78 | the memory and the updates sent to the shared state follow the throttling rule |
| DataUpdatesHandlerModel.GuiDataHandler.constructor | aman-dman-client/model/src/main/kotlin/no/vaccsca/amandman/model/domain/service/DataUpdatesHandler.kt:15-16 | a new GUI handler has delivered nothing |
| DataUpdatesHandlerModel.GuiDataHandler.OnUpdate | aman-dman-client/model/src/main/kotlin/no/vaccsca/amandman/model/domain/service/DataUpdatesHandler.kt:18-39 | every update is handed to the presenter, in order |
| ModeAwarePresenterModel.IsFeatureAvailable | aman-dman-client/presenter/src/main/kotlin/no/vaccsca/amandman/presenter/ModeAwarePresenterInterface.kt:16-28 | a feature is available unless the mode is slave and the feature changes the plan |
| ModeAwarePresenterModel.FeatureMatrix | aman-dman-client/presenter/src/main/kotlin/no/vaccsca/amandman/presenter/ModeAwarePresenterInterface.kt:16-28 | master and local modes offer every feature; slave mode withholds exactly five |
| ModeAwarePresenterModel.DefaultOperation | aman-dman-client/presenter/src/main/kotlin/no/vaccsca/amandman/presenter/ModeAwarePresenterInterface.kt:54-68 | a planner without its own implementation refuses each plan-changing operation with "Operation not supported in slave mode" |
| Strings.LeIsTotalOrder | aman-dman-client/controller/src/main/kotlin/no/vaccsca/amandman/controller/RunwayModeState.kt:19 | the string order used by `sorted()` is total, transitive and antisymmetric |
| Strings.Trim | aman-dman-client/service/src/main/kotlin/NavdataService.kt:21 | a trimmed string has no white space at either end and is no longer |
| Strings.TrimSlice | aman-dman-client/service/src/main/kotlin/NavdataService.kt:21 | trimming removes only white space, from the two ends |
| Strings.TrimTrimmed | aman-dman-client/service/src/main/kotlin/NavdataService.kt:21 | trimming a trimmed string changes nothing |
| Strings.SplitWhere | aman-dman-client/service/src/main/kotlin/NavdataService.kt:55 | the pieces of a split hold no separator and are never none |
| Strings.SplitJoinInverse | aman-dman-client/service/src/main/kotlin/NavdataService.kt:55 | pieces without separator, joined by a separator, split back into the same pieces |
| Strings.NonEmptyAppend | aman-dman-client/service/src/main/kotlin/NavdataService.kt:21 | dropping empty strings distributes over concatenation |
| Decimal.NatToString | aman-dman-client/view/src/main/kotlin/no/vaccsca/amandman/view/airport/timeline/labels/ArrivalLabel.kt:128 | a number is printed as digits without a leading zero |
| Decimal.IntToString | aman-dman-client/view/src/main/kotlin/no/vaccsca/amandman/view/airport/timeline/labels/ArrivalLabel.kt:128 | a negative number is printed as "-" and its magnitude |
| Decimal.ValueOfNatToString | aman-dman-client/view/src/main/kotlin/no/vaccsca/amandman/view/airport/timeline/labels/ArrivalLabel.kt:128 | a printed number reads back as itself |
| Decimal.NatToStringInjective | aman-dman-client/view/src/main/kotlin/no/vaccsca/amandman/view/airport/timeline/labels/ArrivalLabel.kt:128 | different numbers print differently |

## Left out

- Threads, sockets, the mutex and the condition variable of `AmanServer` are not modelled as concurrent code. Each thread's loop is modelled as steps on the shared state, so the model does not explore interleavings.
- `AmanServer`'s sender thread is created only in `startServer`, so once it ends, after a failed send or a disconnect, it is never restarted. The model keeps that behaviour: only `StartServer` sets the sender running.
- Socket I/O is represented by its results: a connection's `recv` calls are a parameter sequence of results, which ends in a close or an error. The host's `OnTimer` tick, JSON serialization, `getOutboundsFromAirport` and the `strftime` formatting in `onSetCtot` are not part of this model.
- SecondsInBand: the C++ computes `ratio * 60.0` in `float` and truncates it; the model takes the exact integer quotient `above * 60 / width`, which can be one second more (a step from 5700 to 4700 ft gives 41 s in `float` and 42 s in the model).
- Floating-point geometry is left out. This covers great-circle distance and bearing (the per-step leg is a parameter `leg`), `findRemainingDist`, the interpolation in the `timeToFix` and `timeToDestination` predictions, and the averaged heading and accumulated distance of profile sections.
- The ordering `operator<` of `AmanAircraft.h` is a parameter `le`. `std::sort` is not stable, and the model sorts stably, so the model fixes one of the orders the C++ may produce for equal keys.
- Kotlin `Duration` and `Instant` values are whole seconds. `nmToDuration` rounds down to a whole second.
- Spacing values are tenths of a nautical mile, not `Double`s. Printing one with one decimal is modelled on tenths by `RunwayModeStateModel.SpacingText`; rounding of values that are not whole tenths is not.
- Negative altitudes are not modelled: altitudes are `nat`.
- RecalculateSequence: requires that no arrival occurrence object appears twice in the timeline's list. `recalculateSequence` (TimelineController.kt:117-144) never checks this. It holds in the program because `handleArrivals` (TimelineController.kt:50-85) builds a fresh `RunwayArrivalOccurrence` for every arrival it receives. The model does not cover a list that holds one object twice, where a later write would overwrite an earlier one.
- `StarFixBuilder` is not modelled as a builder. The constraints it collects are kept as a list.
- `Number()` and `parseInt` accept more forms than the model's decimal reader (signs, exponents, whitespace), and `Number()` loses precision above 2^53. The model reads plain decimal digits.
- Unicode case mapping and Unicode whitespace are not modelled. `toUpperCase` and `trim` act on ASCII only.
- The coordination server's airport-data GET and POST routes, the airport list, logging, middleware, `versionMiddleware`, the health route and the latest-client-version route are not modelled.
- `fetchLatestClientVersion` makes a network request that is not modelled. Its result is a parameter: a version, or absent for a response that is not OK.
- GetLatestVersionCached: like `CoordinationServer.CachedVersion`, it has no case for a fetch that rejects (a network error, or a body without `tag_name`); the source then rejects too, and the model has no such outcome.
- CompatRoute: on a fetch that rejects, the source's handler sends no response at all; the model always answers, with 500 or a status.
- When a GET of the master role has neither a session header nor a stored master, `isMaster` compares two missing values and reports true. The model keeps this as written.
- `processMessage` exceptions raised by malformed JSON are not modelled. Messages arrive already decoded.
- In `TabController`, `openNewTimeline`, `setView` and `addDelayDefinition` only forward to the view and are not modelled.
- `CdmClient`'s HTTP fetch and JSON decoding are not modelled. The fetched records are a parameter.
- `CdmClient` reads the clock twice, once for the start of the day and once for the one-hour window; the model reads one `now` for both, so a call that spans midnight is not modelled.

## Findings

| source | as written | input that shows it | evidently intended | confidence | as-written member | corrected member |
|---|---|---|---|---|---|---|
| aman-dman-client/service/src/main/kotlin/SequencingService.kt:41-56 | the reference time is not advanced after an aircraft enters the horizon, so the next entering aircraft is spaced behind a stale time | three medium-wake aircraft crossing into the horizon together with equal estimates get 1000, 1077 and 1077 s, so the third is not spaced behind the second | each entering aircraft is at least the wake spacing behind the last aircraft sequenced before it | not executed | SequencingServiceModel.ReferenceNotAdvancedBreaksSpacing | SequencingServiceModel.RunSpacesEntering |
| euroscope-bridge/Aman/AmanPlugIn.cpp:249-263 | time goes missing in three ways: a sample that stays in its band after a crossing is credited only the carried rest instead of its own minute as well; a second crossing in a row overwrites the rest the first one carried; the rest left after the last sample is never credited | a descent through 6000, 4000 and 3000 ft lasts two minutes but its sections hold 60 s in all; one through 11000, 9000 and 4000 ft holds 78 s | the sections together hold the whole trajectory, one minute per step | not executed | AmanPlugInModel.CrossingLosesAMinute | AmanPlugInModel.CorrectedProfileTotal |
| server/simple-server.js:443-448 | the compat route calls `compareVersions`, which the file never defines, so the handler throws a ReferenceError whenever a latest version is known | any request once a latest client version has been fetched | the route answers with a status, as server.ts does | not executed | CoordinationServer.SimpleCompatNeverAnswers | CoordinationServer.SimpleCompatAnswers |
