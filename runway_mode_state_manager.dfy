/**
 * `RunwayModeStateManager`: keeps one `RunwayModeState` per airport (in a
 * `mutableMapOf`, so in order of first arrival) and pushes the labels of an
 * airport to the view whenever its state changes. The view is recorded as
 * the list of `updateRunwayModes` calls it has received.
 */
module RunwayModeStateManagerModel {
  import opened Wrappers
  import Sorting
  import LinkedMap
  import Strings
  import opened RunwayModeStateModel

  /** The first two characters of a runway name: its direction ("01", "19", ...). */
  function Direction(runway: string): string
  {
    Strings.Take(runway, 2)
  }

  /**
   * `runwayNames.groupBy { it.take(2) }`: the names grouped by direction;
   * groups appear in order of their first member and keep their members in
   * input order.
   */
  function GroupByDirection(names: seq<string>): (r: LinkedMap.Entries<string, seq<string>>)
    ensures LinkedMap.DistinctKeys(r)
    decreases |names|
  {
    if names == [] then []
    else
      var groups := GroupByDirection(names[..|names| - 1]);
      var x := names[|names| - 1];
      LinkedMap.PutKeepsDistinct(groups, Direction(x), LinkedMap.Get(groups, Direction(x)).GetOr([]) + [x]);
      LinkedMap.Put(groups, Direction(x), LinkedMap.Get(groups, Direction(x)).GetOr([]) + [x])
  }

  /** What one group contributes: its runways, then all of them combined when there are several. */
  function GroupModes(runways: seq<string>): seq<string>
  {
    runways + if |runways| > 1 then [Strings.Join(Sorting.Sort(runways, Strings.Le), "/")] else []
  }

  /** The `flatMap` over the groups. */
  function Modes(groups: LinkedMap.Entries<string, seq<string>>): seq<string>
  {
    if groups == [] then [] else GroupModes(groups[0].1) + Modes(groups[1..])
  }

  /** `inferPossibleRunwayModes`. */
  function InferPossibleRunwayModes(runwayStatuses: LinkedMap.Entries<string, RunwayStatus>): seq<string>
  {
    Modes(GroupByDirection(LinkedMap.Keys(runwayStatuses)))
  }

  /** The number of runways over all groups. */
  function Size(groups: LinkedMap.Entries<string, seq<string>>): nat
  {
    if groups == [] then 0 else |groups[0].1| + Size(groups[1..])
  }

  /** The number of groups with more than one runway. */
  function Combined(groups: LinkedMap.Entries<string, seq<string>>): nat
  {
    if groups == [] then 0 else (if |groups[0].1| > 1 then 1 else 0) + Combined(groups[1..])
  }

  lemma {:induction false} ModesLength(groups: LinkedMap.Entries<string, seq<string>>)
    ensures |Modes(groups)| == Size(groups) + Combined(groups)
  {
    if groups != [] {
      ModesLength(groups[1..]);
    }
  }

  lemma {:induction false} SizePut(groups: LinkedMap.Entries<string, seq<string>>, k: string, v: seq<string>)
    ensures Size(LinkedMap.Put(groups, k, v)) + |LinkedMap.Get(groups, k).GetOr([])| == Size(groups) + |v|
  {
    if groups != [] && groups[0].0 != k {
      var r := LinkedMap.Put(groups, k, v);
      assert r[1..] == LinkedMap.Put(groups[1..], k, v);
      SizePut(groups[1..], k, v);
    }
  }

  /** Grouping loses and duplicates no runway. */
  lemma {:induction false} GroupSize(names: seq<string>)
    ensures Size(GroupByDirection(names)) == |names|
    decreases |names|
  {
    if names != [] {
      var groups := GroupByDirection(names[..|names| - 1]);
      var x := names[|names| - 1];
      GroupSize(names[..|names| - 1]);
      SizePut(groups, Direction(x), LinkedMap.Get(groups, Direction(x)).GetOr([]) + [x]);
    }
  }

  /** Every group holds only runways of its direction, and every runway is in a group. */
  lemma {:induction false} GroupMembers(names: seq<string>)
    ensures forall entry | entry in GroupByDirection(names) :: forall y | y in entry.1 :: Direction(y) == entry.0
    ensures forall x | x in names :: exists entry | entry in GroupByDirection(names) :: x in entry.1
  {
    GroupDirections(names);
    GroupCovers(names);
  }

  lemma {:induction false} GroupDirections(names: seq<string>)
    ensures forall entry | entry in GroupByDirection(names) :: forall y | y in entry.1 :: Direction(y) == entry.0
    decreases |names|
  {
    if names != [] {
      var prefix := names[..|names| - 1];
      var groups := GroupByDirection(prefix);
      var x := names[|names| - 1];
      var k := Direction(x);
      var v := LinkedMap.Get(groups, k).GetOr([]) + [x];
      GroupDirections(prefix);
      forall entry | entry in GroupByDirection(names) ensures forall y | y in entry.1 :: Direction(y) == entry.0 {
        LinkedMap.PutMember(groups, k, v, entry);
        if entry == (k, v) && LinkedMap.Get(groups, k).Some? {
          assert (k, LinkedMap.Get(groups, k).value) in groups;
        }
      }
    }
  }

  lemma {:induction false} GroupCovers(names: seq<string>)
    ensures forall x | x in names :: exists entry | entry in GroupByDirection(names) :: x in entry.1
    decreases |names|
  {
    if names != [] {
      var prefix := names[..|names| - 1];
      var groups := GroupByDirection(prefix);
      var x := names[|names| - 1];
      var k := Direction(x);
      var v := LinkedMap.Get(groups, k).GetOr([]) + [x];
      var r := GroupByDirection(names);
      assert r == LinkedMap.Put(groups, k, v);
      GroupCovers(prefix);
      assert (k, v) in r by {
        assert LinkedMap.Get(r, k) == Some(v);
      }
      forall y | y in names ensures exists entry | entry in r :: y in entry.1 {
        if y != x {
          assert y in prefix by {
            var i :| 0 <= i < |names| && names[i] == y;
            assert i < |names| - 1;
            assert prefix[i] == y;
          }
          GroupCoversOld(groups, k, v, y);
        } else {
          assert y in v;
        }
      }
    }
  }

  /** A runway already in a group stays in one after another runway is added to the groups. */
  lemma {:induction false} GroupCoversOld(groups: LinkedMap.Entries<string, seq<string>>, k: string, v: seq<string>, y: string)
    requires exists entry | entry in groups :: y in entry.1
    requires LinkedMap.DistinctKeys(groups)
    requires LinkedMap.Get(groups, k).Some? ==> LinkedMap.Get(groups, k).value <= v
    ensures exists entry | entry in LinkedMap.Put(groups, k, v) :: y in entry.1
  {
    var r := LinkedMap.Put(groups, k, v);
    var entry :| entry in groups && y in entry.1;
    LinkedMap.GetMember(groups, entry);
    if entry.0 == k {
      assert LinkedMap.Get(r, k) == Some(v);
      assert y in v;
    } else {
      LinkedMap.GetPut(groups, k, v, entry.0);
      assert (entry.0, LinkedMap.Get(r, entry.0).value) in r;
    }
  }

  lemma {:induction false} ModesContainGroups(groups: LinkedMap.Entries<string, seq<string>>, entry: (string, seq<string>), y: string)
    requires entry in groups && y in entry.1
    ensures y in Modes(groups)
  {
    if groups[0] != entry {
      assert entry in groups[1..];
      ModesContainGroups(groups[1..], entry, y);
    }
  }

  /**
   * The modes offered for an airport: every runway on its own, followed per
   * direction by the combination of that direction's runways when it has
   * several; one entry per runway plus one per such direction.
   */
  lemma {:induction false} InferPossibleRunwayModesSpec(runwayStatuses: LinkedMap.Entries<string, RunwayStatus>)
    ensures var names := LinkedMap.Keys(runwayStatuses);
            && |InferPossibleRunwayModes(runwayStatuses)| == |runwayStatuses| + Combined(GroupByDirection(names))
            && (forall x | x in names :: x in InferPossibleRunwayModes(runwayStatuses))
            && (forall entry | entry in GroupByDirection(names) :: forall y | y in entry.1 :: Direction(y) == entry.0)
  {
    var names := LinkedMap.Keys(runwayStatuses);
    var groups := GroupByDirection(names);
    ModesLength(groups);
    GroupSize(names);
    GroupMembers(names);
    forall x | x in names ensures x in Modes(groups) {
      var entry :| entry in groups && x in entry.1;
      ModesContainGroups(groups, entry, x);
    }
  }

  /** `state.copy(minimumSpacing = ...)`. */
  function Respaced(state: RunwayModeState, minimumSpacingTenths: nat): RunwayModeState
  {
    state.(minimumSpacingTenths := minimumSpacingTenths)
  }

  /** The states after `updateMinimumSpacing`: every airport keeps everything but the spacing. */
  function WithSpacing(states: LinkedMap.Entries<string, RunwayModeState>, minimumSpacingTenths: nat): LinkedMap.Entries<string, RunwayModeState>
  {
    seq(|states|, j requires 0 <= j < |states| => (states[j].0, Respaced(states[j].1, minimumSpacingTenths)))
  }

  /** The states after `refreshAllStates`: the runway modes are inferred again from the runway statuses. */
  function Refreshed(states: LinkedMap.Entries<string, RunwayModeState>): LinkedMap.Entries<string, RunwayModeState>
  {
    seq(|states|, j requires 0 <= j < |states| => (states[j].0, states[j].1.(runwayModes := InferPossibleRunwayModes(states[j].1.runwayStatuses))))
  }

  /** The view updates that sending every airport's labels in map order produces. */
  function Views(states: LinkedMap.Entries<string, RunwayModeState>): (r: seq<(string, seq<Label>)>)
    ensures |r| == |states|
  {
    if states == [] then []
    else
      var last := states[|states| - 1];
      Views(states[..|states| - 1]) + [(last.0, ControllerDisplayLabels(last.1))]
  }

  /** Every stored state belongs to the airport it is stored under and offers the modes inferred from its runways. */
  predicate Consistent(states: LinkedMap.Entries<string, RunwayModeState>)
  {
    && LinkedMap.DistinctKeys(states)
    && forall j | 0 <= j < |states| ::
         && states[j].1.airportIcao == states[j].0
         && states[j].1.runwayModes == InferPossibleRunwayModes(states[j].1.runwayStatuses)
  }

  /** A new spacing adds and removes no airport and keeps the states consistent. */
  lemma {:induction false} WithSpacingKeepsAirports(states: LinkedMap.Entries<string, RunwayModeState>, minimumSpacingTenths: nat)
    ensures LinkedMap.Keys(WithSpacing(states, minimumSpacingTenths)) == LinkedMap.Keys(states)
    ensures Consistent(states) ==> Consistent(WithSpacing(states, minimumSpacingTenths))
  {
    assert LinkedMap.Keys(WithSpacing(states, minimumSpacingTenths)) == LinkedMap.Keys(states);
  }

  /**
   * Inferring the modes reads nothing but the runway statuses, so on
   * consistent states a refresh changes no state; it only sends every
   * airport's labels again.
   */
  lemma {:induction false} RefreshChangesNoState(states: LinkedMap.Entries<string, RunwayModeState>)
    requires Consistent(states)
    ensures Refreshed(states) == states
  {
    assert forall j | 0 <= j < |states| :: Refreshed(states)[j] == states[j];
  }

  class RunwayModeStateManager {
    var airportStates: LinkedMap.Entries<string, RunwayModeState>
    /** The `view.updateRunwayModes(airportIcao, labels)` calls made so far, oldest first. */
    var viewUpdates: seq<(string, seq<Label>)>

    ghost predicate Valid()
      reads this
    {
      Consistent(airportStates)
    }

    constructor()
      ensures Valid() && airportStates == [] && viewUpdates == []
    {
      airportStates := [];
      viewUpdates := [];
    }

    /** `updateView`: one call to the view with the airport's labels. */
    method UpdateView(airportIcao: string, state: RunwayModeState)
      modifies this
      ensures airportStates == old(airportStates)
      ensures viewUpdates == old(viewUpdates) + [(airportIcao, ControllerDisplayLabels(state))]
    {
      viewUpdates := viewUpdates + [(airportIcao, ControllerDisplayLabels(state))];
    }

    /** `updateRunwayStatuses`: stores the airport's new state and shows it, exactly once. */
    method UpdateRunwayStatuses(airportIcao: string, runwayStatuses: LinkedMap.Entries<string, RunwayStatus>, minimumSpacingTenths: nat)
      requires Valid()
      modifies this
      ensures Valid()
      ensures var newState := RunwayModeState(airportIcao, runwayStatuses, minimumSpacingTenths, InferPossibleRunwayModes(runwayStatuses));
              && airportStates == LinkedMap.Put(old(airportStates), airportIcao, newState)
              && viewUpdates == old(viewUpdates) + [(airportIcao, ControllerDisplayLabels(newState))]
    {
      var possibleRunwayModes := InferPossibleRunwayModes(runwayStatuses);
      var newState := RunwayModeState(airportIcao, runwayStatuses, minimumSpacingTenths, possibleRunwayModes);
      PutKeepsConsistent(airportStates, airportIcao, newState);
      airportStates := LinkedMap.Put(airportStates, airportIcao, newState);
      UpdateView(airportIcao, newState);
    }

    /** `updateMinimumSpacing`: every known airport gets the new spacing and is shown again, in map order. */
    method UpdateMinimumSpacing(minimumSpacingTenths: nat)
      requires Valid()
      modifies this
      ensures Valid()
      ensures airportStates == WithSpacing(old(airportStates), minimumSpacingTenths)
      ensures viewUpdates == old(viewUpdates) + Views(airportStates)
    {
      ghost var before := airportStates;
      var i := 0;
      while i < |airportStates|
        invariant |airportStates| == |before| && 0 <= i <= |before|
        invariant airportStates == WithSpacing(before[..i], minimumSpacingTenths) + before[i..]
        invariant viewUpdates == old(viewUpdates) + Views(WithSpacing(before[..i], minimumSpacingTenths))
        invariant LinkedMap.Keys(airportStates) == LinkedMap.Keys(before)
        invariant LinkedMap.DistinctKeys(airportStates)
      {
        SetSpacingAt(i, minimumSpacingTenths, before, old(viewUpdates));
        i := i + 1;
      }
      WholePrefix(WithSpacing(before[..i], minimumSpacingTenths), before, i);
      WithSpacingKeepsAirports(before, minimumSpacingTenths);
    }

    /** The body of the `updateMinimumSpacing` loop, for the `i`th airport. */
    method SetSpacingAt(i: nat, minimumSpacingTenths: nat, ghost before: LinkedMap.Entries<string, RunwayModeState>, ghost sent: seq<(string, seq<Label>)>)
      requires i < |before| && LinkedMap.DistinctKeys(airportStates)
      requires airportStates == WithSpacing(before[..i], minimumSpacingTenths) + before[i..]
      requires viewUpdates == sent + Views(WithSpacing(before[..i], minimumSpacingTenths))
      modifies this
      ensures airportStates == WithSpacing(before[..i + 1], minimumSpacingTenths) + before[i + 1..]
      ensures viewUpdates == sent + Views(WithSpacing(before[..i + 1], minimumSpacingTenths))
      ensures LinkedMap.Keys(airportStates) == old(LinkedMap.Keys(airportStates))
    {
      WithSpacingStep(before, i, minimumSpacingTenths, airportStates, sent, viewUpdates);
      var (airportIcao, currentState) := airportStates[i];
      var updatedState := Respaced(currentState, minimumSpacingTenths);
      airportStates := LinkedMap.Put(airportStates, airportIcao, updatedState);
      UpdateView(airportIcao, updatedState);
    }

    /** `refreshAllStates`: every known airport's modes are inferred again and shown, in map order. */
    method RefreshAllStates()
      requires Valid()
      modifies this
      ensures Valid()
      ensures airportStates == Refreshed(old(airportStates))
      ensures viewUpdates == old(viewUpdates) + Views(airportStates)
    {
      ghost var before := airportStates;
      var i := 0;
      while i < |airportStates|
        invariant |airportStates| == |before| && 0 <= i <= |before|
        invariant airportStates == Refreshed(before[..i]) + before[i..]
        invariant viewUpdates == old(viewUpdates) + Views(Refreshed(before[..i]))
        invariant LinkedMap.Keys(airportStates) == LinkedMap.Keys(before)
        invariant LinkedMap.DistinctKeys(airportStates)
      {
        RefreshAt(i, before, old(viewUpdates));
        i := i + 1;
      }
      WholePrefix(Refreshed(before[..i]), before, i);
      RefreshChangesNoState(before);
    }

    /** The body of the `refreshAllStates` loop, for the `i`th airport. */
    method RefreshAt(i: nat, ghost before: LinkedMap.Entries<string, RunwayModeState>, ghost sent: seq<(string, seq<Label>)>)
      requires i < |before| && LinkedMap.DistinctKeys(airportStates)
      requires airportStates == Refreshed(before[..i]) + before[i..]
      requires viewUpdates == sent + Views(Refreshed(before[..i]))
      modifies this
      ensures airportStates == Refreshed(before[..i + 1]) + before[i + 1..]
      ensures viewUpdates == sent + Views(Refreshed(before[..i + 1]))
      ensures LinkedMap.Keys(airportStates) == old(LinkedMap.Keys(airportStates))
    {
      RefreshedStep(before, i, airportStates, sent, viewUpdates);
      var (airportIcao, currentState) := airportStates[i];
      var possibleRunwayModes := InferPossibleRunwayModes(currentState.runwayStatuses);
      var updatedState := currentState.(runwayModes := possibleRunwayModes);
      airportStates := LinkedMap.Put(airportStates, airportIcao, updatedState);
      UpdateView(airportIcao, updatedState);
    }
  }

  /** What one turn of the `updateMinimumSpacing` loop achieves. */
  lemma {:induction false} WithSpacingStep(before: LinkedMap.Entries<string, RunwayModeState>, i: nat, minimumSpacingTenths: nat,
                        current: LinkedMap.Entries<string, RunwayModeState>, sent: seq<(string, seq<Label>)>, views: seq<(string, seq<Label>)>)
    requires i < |before| && LinkedMap.DistinctKeys(current)
    requires current == WithSpacing(before[..i], minimumSpacingTenths) + before[i..]
    requires views == sent + Views(WithSpacing(before[..i], minimumSpacingTenths))
    ensures current[i] == before[i]
    ensures var updated := Respaced(before[i].1, minimumSpacingTenths);
            && LinkedMap.Put(current, before[i].0, updated) == WithSpacing(before[..i + 1], minimumSpacingTenths) + before[i + 1..]
            && views + [(before[i].0, ControllerDisplayLabels(updated))] == sent + Views(WithSpacing(before[..i + 1], minimumSpacingTenths))
  {
    var done := WithSpacing(before[..i], minimumSpacingTenths);
    var updated := Respaced(before[i].1, minimumSpacingTenths);
    LinkedMap.PutInPlace(done, before[i..], updated);
    assert before[i..][1..] == before[i + 1..];
    WithSpacingPrefix(before, i, minimumSpacingTenths);
    ViewsAppend(done, (before[i].0, updated));
  }

  /** What one turn of the `refreshAllStates` loop achieves. */
  lemma {:induction false} RefreshedStep(before: LinkedMap.Entries<string, RunwayModeState>, i: nat,
                      current: LinkedMap.Entries<string, RunwayModeState>, sent: seq<(string, seq<Label>)>, views: seq<(string, seq<Label>)>)
    requires i < |before| && LinkedMap.DistinctKeys(current)
    requires current == Refreshed(before[..i]) + before[i..]
    requires views == sent + Views(Refreshed(before[..i]))
    ensures current[i] == before[i]
    ensures var updated := before[i].1.(runwayModes := InferPossibleRunwayModes(before[i].1.runwayStatuses));
            && LinkedMap.Put(current, before[i].0, updated) == Refreshed(before[..i + 1]) + before[i + 1..]
            && views + [(before[i].0, ControllerDisplayLabels(updated))] == sent + Views(Refreshed(before[..i + 1]))
  {
    var done := Refreshed(before[..i]);
    var updated := before[i].1.(runwayModes := InferPossibleRunwayModes(before[i].1.runwayStatuses));
    LinkedMap.PutInPlace(done, before[i..], updated);
    assert before[i..][1..] == before[i + 1..];
    RefreshedPrefix(before, i);
    ViewsAppend(done, (before[i].0, updated));
  }

  lemma {:induction false} WithSpacingPrefix(states: LinkedMap.Entries<string, RunwayModeState>, i: nat, minimumSpacingTenths: nat)
    requires i < |states|
    ensures WithSpacing(states[..i + 1], minimumSpacingTenths)
            == WithSpacing(states[..i], minimumSpacingTenths) + [(states[i].0, Respaced(states[i].1, minimumSpacingTenths))]
  {
    assert states[..i + 1][..i] == states[..i];
  }

  lemma {:induction false} RefreshedPrefix(states: LinkedMap.Entries<string, RunwayModeState>, i: nat)
    requires i < |states|
    ensures Refreshed(states[..i + 1])
            == Refreshed(states[..i]) + [(states[i].0, states[i].1.(runwayModes := InferPossibleRunwayModes(states[i].1.runwayStatuses)))]
  {
    assert states[..i + 1][..i] == states[..i];
  }

  /** When a loop over `whole` is done, the processed prefix is all of it. */
  lemma {:induction false} WholePrefix<T>(done: seq<T>, whole: seq<T>, i: nat)
    requires i == |whole|
    ensures whole[..i] == whole && done + whole[i..] == done
  {
  }

  lemma {:induction false} ViewsAppend(states: LinkedMap.Entries<string, RunwayModeState>, entry: (string, RunwayModeState))
    ensures Views(states + [entry]) == Views(states) + [(entry.0, ControllerDisplayLabels(entry.1))]
  {
    assert (states + [entry])[..|states|] == states;
  }

  lemma {:induction false} PutKeepsConsistent(states: LinkedMap.Entries<string, RunwayModeState>, airportIcao: string, state: RunwayModeState)
    requires Consistent(states)
    requires state.airportIcao == airportIcao && state.runwayModes == InferPossibleRunwayModes(state.runwayStatuses)
    ensures Consistent(LinkedMap.Put(states, airportIcao, state))
  {
    var r := LinkedMap.Put(states, airportIcao, state);
    LinkedMap.PutKeepsDistinct(states, airportIcao, state);
    forall j | 0 <= j < |r|
      ensures r[j].1.airportIcao == r[j].0 && r[j].1.runwayModes == InferPossibleRunwayModes(r[j].1.runwayStatuses)
    {
      assert r[j] in r;
      LinkedMap.PutMember(states, airportIcao, state, r[j]);
    }
  }
}
