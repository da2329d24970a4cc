/**
 * `RunwayModeState`: what the runway-mode bar of an airport shows. The
 * state holds the airport, the status of each runway (in the map's order),
 * the minimum spacing and the runway modes offered by the settings; the
 * labels are pairs of a text and an "active" flag. The presenter and the
 * controller each have a copy of the class; they differ only in the text
 * shown when no runway takes arrivals.
 *
 * The minimum spacing is a `Double` in nautical miles; here it is a whole
 * number of tenths of a nautical mile.
 */
module RunwayModeStateModel {
  import Sorting
  import Search
  import LinkedMap
  import Strings
  import Decimal

  datatype RunwayStatus = RunwayStatus(arrivals: bool, departures: bool)

  /** A label: its text and whether it is shown as active. */
  type Label = (string, bool)

  datatype RunwayModeState = RunwayModeState(
    airportIcao: string,
    runwayStatuses: LinkedMap.Entries<string, RunwayStatus>,
    minimumSpacingTenths: nat,
    runwayModes: seq<string>)

  const PresenterNoActiveRunway: string := "NO ACT RWY"
  const ControllerNoActiveRunway: string := "No active runway"

  function TakesArrivals(entry: (string, RunwayStatus)): bool
  {
    entry.1.arrivals
  }

  /** The names of the runways in use for arrivals, as a set. */
  function ArrivalRunways(statuses: LinkedMap.Entries<string, RunwayStatus>): set<string>
  {
    set entry | entry in statuses && entry.1.arrivals :: entry.0
  }

  /** `activeArrivalRunways`: the names of the runways taking arrivals, in the natural string order. */
  function ActiveArrivalRunways(statuses: LinkedMap.Entries<string, RunwayStatus>): seq<string>
  {
    Sorting.Sort(LinkedMap.Keys(Search.Filter(statuses, TakesArrivals)), Strings.Le)
  }

  /** The active arrival runways are exactly the runways taking arrivals, sorted, each once. */
  lemma {:induction false} ActiveArrivalRunwaysSpec(statuses: LinkedMap.Entries<string, RunwayStatus>)
    ensures Sorting.SortedBy(ActiveArrivalRunways(statuses), Strings.Le)
    ensures forall x :: x in ActiveArrivalRunways(statuses) <==> x in ArrivalRunways(statuses)
    ensures LinkedMap.DistinctKeys(statuses) ==> Search.Distinct(ActiveArrivalRunways(statuses))
  {
    var filtered := Search.Filter(statuses, TakesArrivals);
    var names := LinkedMap.Keys(filtered);
    var r := ActiveArrivalRunways(statuses);
    Strings.LeIsTotalOrder();
    Sorting.SortIsSorted(names, Strings.Le);
    forall x ensures x in r <==> x in ArrivalRunways(statuses) {
      assert x in r <==> x in multiset(names);
      if x in names {
        var i :| 0 <= i < |names| && names[i] == x;
        assert filtered[i] in filtered;
      }
      if x in ArrivalRunways(statuses) {
        var entry :| entry in statuses && entry.1.arrivals && entry.0 == x;
        assert entry in filtered;
        LinkedMap.InKeys(filtered, entry);
      }
    }
    if LinkedMap.DistinctKeys(statuses) {
      LinkedMap.FilterKeepsDistinct(statuses, TakesArrivals);
      Search.DistinctPermutation(r, names);
    }
  }

  /**
   * `"$minimumSpacingNm"` for a spacing with one decimal: the whole part,
   * a point and the tenths digit ("3.0", "2.5").
   */
  function SpacingText(tenths: nat): string
  {
    Decimal.NatToString(tenths / 10) + "." + [Decimal.DigitChar(tenths % 10)]
  }

  /** The spacing can be read back from its text. */
  lemma {:induction false} SpacingTextReadsBack(tenths: nat)
    ensures var s := SpacingText(tenths);
            && |s| >= 3 && s[|s| - 2] == '.'
            && Decimal.AllDigits(s[..|s| - 2]) && Decimal.IsDigit(s[|s| - 1])
            && 10 * Decimal.Value(s[..|s| - 2]) + Decimal.DigitValue(s[|s| - 1]) == tenths
  {
    var s := SpacingText(tenths);
    assert s[..|s| - 2] == Decimal.NatToString(tenths / 10);
    Decimal.ValueOfNatToString(tenths / 10);
  }

  /** The mode label: which runways take arrivals. */
  function ModeLabel(active: seq<string>, noActiveRunway: string): Label
  {
    if |active| == 0 then (noActiveRunway, false)
    else if |active| == 1 then ("S" + active[0], true)
    else ("M" + Strings.Join(active, "/"), true)
  }

  /**
   * `formatLabel`: a runway mode is active when it names one of the active
   * arrival runways; a single-runway mode ("S...") is shown as it is and any
   * other mode is followed by the minimum spacing.
   */
  function FormatLabel(modeString: string, active: seq<string>, minimumSpacingTenths: nat): (r: Label)
    ensures r.1 <==> exists runway | runway in active :: Strings.Contains(modeString, runway)
    ensures Strings.StartsWith(r.0, modeString)
    ensures r.0 == modeString <==> Strings.StartsWith(modeString, "S")
    ensures !Strings.StartsWith(modeString, "S") ==> r.0[|modeString|] == ':' && r.0[|modeString| + 1..] == SpacingText(minimumSpacingTenths)
  {
    var isActive := exists runway | runway in active :: Strings.Contains(modeString, runway);
    var displayLabel :=
      if Strings.StartsWith(modeString, "S") then modeString
      else modeString + ":" + SpacingText(minimumSpacingTenths);
    (displayLabel, isActive)
  }

  /** `generateDisplayLabels`, with the text each copy shows when no runway takes arrivals. */
  function DisplayLabels(state: RunwayModeState, noActiveRunway: string): (r: seq<Label>)
    ensures |r| == 2 + |state.runwayModes|
    ensures r[0] == ("[" + state.airportIcao + "]", true)
    ensures r[1] == ModeLabel(ActiveArrivalRunways(state.runwayStatuses), noActiveRunway)
    ensures forall i | 0 <= i < |state.runwayModes| ::
              r[i + 2] == FormatLabel(state.runwayModes[i], ActiveArrivalRunways(state.runwayStatuses), state.minimumSpacingTenths)
  {
    var active := ActiveArrivalRunways(state.runwayStatuses);
    [("[" + state.airportIcao + "]", true), ModeLabel(active, noActiveRunway)]
      + seq(|state.runwayModes|, i requires 0 <= i < |state.runwayModes| =>
              FormatLabel(state.runwayModes[i], active, state.minimumSpacingTenths))
  }

  /** The presenter's copy: airport label, mode label, then one label per runway mode. */
  function PresenterDisplayLabels(state: RunwayModeState): (r: seq<Label>)
    ensures |r| == 2 + |state.runwayModes| && r[0] == ("[" + state.airportIcao + "]", true)
    ensures ArrivalRunways(state.runwayStatuses) == {} ==> r[1] == ("NO ACT RWY", false)
    ensures ArrivalRunways(state.runwayStatuses) != {} ==> r[1].1
  {
    ModeLabelCases(state.runwayStatuses, PresenterNoActiveRunway);
    DisplayLabels(state, PresenterNoActiveRunway)
  }

  /** The controller's copy: the same, except for the text shown with no active runway. */
  function ControllerDisplayLabels(state: RunwayModeState): (r: seq<Label>)
    ensures |r| == 2 + |state.runwayModes| && r[0] == ("[" + state.airportIcao + "]", true)
    ensures ArrivalRunways(state.runwayStatuses) == {} ==> r[1] == ("No active runway", false)
    ensures ArrivalRunways(state.runwayStatuses) != {} ==> r[1].1
  {
    ModeLabelCases(state.runwayStatuses, ControllerNoActiveRunway);
    DisplayLabels(state, ControllerNoActiveRunway)
  }

  /**
   * The mode label names no runway, the single arrival runway after an "S",
   * or all the arrival runways after an "M" in sorted order, separated by "/".
   */
  lemma {:induction false} ModeLabelCases(statuses: LinkedMap.Entries<string, RunwayStatus>, noActiveRunway: string)
    ensures ArrivalRunways(statuses) == {} ==> ModeLabel(ActiveArrivalRunways(statuses), noActiveRunway) == (noActiveRunway, false)
    ensures ArrivalRunways(statuses) != {} ==> ModeLabel(ActiveArrivalRunways(statuses), noActiveRunway).1
    ensures LinkedMap.DistinctKeys(statuses) ==>
              forall x | ArrivalRunways(statuses) == {x} :: ModeLabel(ActiveArrivalRunways(statuses), noActiveRunway) == ("S" + x, true)
    ensures LinkedMap.DistinctKeys(statuses) ==>
              forall x, y | x in ArrivalRunways(statuses) && y in ArrivalRunways(statuses) && x != y ::
                ModeLabel(ActiveArrivalRunways(statuses), noActiveRunway) == ("M" + Strings.Join(ActiveArrivalRunways(statuses), "/"), true)
  {
    var active := ActiveArrivalRunways(statuses);
    ActiveArrivalRunwaysSpec(statuses);
    if ArrivalRunways(statuses) != {} {
      var x :| x in ArrivalRunways(statuses);
      assert x in active;
    }
    assert active != [] ==> active[0] in ArrivalRunways(statuses);
    if LinkedMap.DistinctKeys(statuses) {
      forall x | ArrivalRunways(statuses) == {x}
        ensures ModeLabel(active, noActiveRunway) == ("S" + x, true)
      {
        assert x in active;
        FirstTwo(active);
      }
      forall x, y | x in ArrivalRunways(statuses) && y in ArrivalRunways(statuses) && x != y
        ensures ModeLabel(active, noActiveRunway) == ("M" + Strings.Join(active, "/"), true)
      {
        assert x in active && y in active;
      }
    }
  }

  /** A runway mode is active exactly when it names a runway taking arrivals. */
  lemma {:induction false} FormatLabelActivity(statuses: LinkedMap.Entries<string, RunwayStatus>, modeString: string, minimumSpacingTenths: nat)
    ensures FormatLabel(modeString, ActiveArrivalRunways(statuses), minimumSpacingTenths).1
            <==> exists entry | entry in statuses && entry.1.arrivals :: Strings.Contains(modeString, entry.0)
  {
    ActiveArrivalRunwaysSpec(statuses);
    var active := ActiveArrivalRunways(statuses);
    if exists entry | entry in statuses && entry.1.arrivals :: Strings.Contains(modeString, entry.0) {
      var entry :| entry in statuses && entry.1.arrivals && Strings.Contains(modeString, entry.0);
      assert entry.0 in ArrivalRunways(statuses);
      assert entry.0 in active;
    }
    if exists runway | runway in active :: Strings.Contains(modeString, runway) {
      var runway :| runway in active && Strings.Contains(modeString, runway);
      assert runway in ArrivalRunways(statuses);
      var entry :| entry in statuses && entry.1.arrivals && entry.0 == runway;
    }
  }

  /**
   * Sorting makes the labels independent of the order in which the map
   * lists the runways: only which runways take arrivals matters.
   */
  lemma {:induction false} LabelsIgnoreMapOrder(a: RunwayModeState, b: RunwayModeState, noActiveRunway: string)
    requires LinkedMap.DistinctKeys(a.runwayStatuses) && LinkedMap.DistinctKeys(b.runwayStatuses)
    requires a.airportIcao == b.airportIcao && a.minimumSpacingTenths == b.minimumSpacingTenths && a.runwayModes == b.runwayModes
    requires ArrivalRunways(a.runwayStatuses) == ArrivalRunways(b.runwayStatuses)
    ensures DisplayLabels(a, noActiveRunway) == DisplayLabels(b, noActiveRunway)
  {
    var x, y := ActiveArrivalRunways(a.runwayStatuses), ActiveArrivalRunways(b.runwayStatuses);
    ActiveArrivalRunwaysSpec(a.runwayStatuses);
    ActiveArrivalRunwaysSpec(b.runwayStatuses);
    SameElementsSameMultiset(x, y);
    Strings.LeIsTotalOrder();
    Sorting.SortedUnique(x, y, Strings.Le);
  }

  lemma {:induction false} FirstTwo(s: seq<string>)
    ensures |s| > 1 ==> s[0] in s && s[1] in s && (Search.Distinct(s) ==> s[0] != s[1])
  {
  }

  lemma {:induction false} SameElementsSameMultiset(x: seq<string>, y: seq<string>)
    requires Search.Distinct(x) && Search.Distinct(y)
    requires forall s :: s in x <==> s in y
    ensures multiset(x) == multiset(y)
  {
    forall s ensures multiset(x)[s] == multiset(y)[s] {
      Search.DistinctCountsOnce(x, s);
      Search.DistinctCountsOnce(y, s);
      assert s in x <==> s in multiset(x);
      assert s in y <==> s in multiset(y);
    }
  }
}
