/**
 * `ModeAwarePresenterInterface.kt`: which features the presenter offers in
 * each application mode, and the planner operations that a planner without
 * its own implementation refuses.
 */
module ModeAwarePresenterModel {
  import opened Wrappers

  datatype ApplicationMode = Master | Local | Slave

  datatype Feature =
    | ModifySequence
    | CreateTimeline
    | DeleteTimeline
    | SetMinimumSpacing
    | ManualAircraftMovement
    | RecalculateSequence
    | ViewSequence
    | ViewWeather
    | ViewDescentProfile

  /** The features a slave, which only mirrors the master's plan, may not use. */
  predicate ChangesThePlan(feature: Feature)
  {
    feature in {ModifySequence, SetMinimumSpacing, ManualAircraftMovement, RecalculateSequence, ViewDescentProfile}
  }

  function IsFeatureAvailable(mode: ApplicationMode, feature: Feature): (r: bool)
    ensures r <==> !(mode == Slave && ChangesThePlan(feature))
  {
    match feature
    case ModifySequence => mode != Slave
    case SetMinimumSpacing => mode != Slave
    case ManualAircraftMovement => mode != Slave
    case RecalculateSequence => mode != Slave
    case ViewDescentProfile => mode != Slave
    case CreateTimeline => true
    case DeleteTimeline => true
    case ViewSequence => true
    case ViewWeather => true
  }

  /** Master and local planners have every feature; a slave lacks exactly five. */
  lemma {:induction false} FeatureMatrix()
    ensures forall f: Feature :: IsFeatureAvailable(Master, f) && IsFeatureAvailable(Local, f)
    ensures |set f: Feature | !IsFeatureAvailable(Slave, f)| == 5
  {
    var unavailable := set f: Feature | !IsFeatureAvailable(Slave, f);
    assert unavailable == {ModifySequence, SetMinimumSpacing, ManualAircraftMovement, RecalculateSequence, ViewDescentProfile} by {
      forall f: Feature ensures f in unavailable <==> ChangesThePlan(f) {
      }
    }
  }

  /** The operations of `PlannerServiceInterface` that have a default body. */
  datatype PlannerOperation = SuggestScheduledTime | ReSchedule | IsTimeSlotAvailable | SetMinimumSpacingOperation

  /** The outcome of calling a planner operation: a result, or the `UnsupportedOperationException` of slave mode. */
  datatype Outcome = Done | Unsupported(message: string)

  /** The default bodies: every one of them refuses. */
  function DefaultOperation(op: PlannerOperation): (r: Outcome)
    ensures r.Unsupported? && r.message == "Operation not supported in slave mode"
  {
    Unsupported("Operation not supported in slave mode")
  }
}
