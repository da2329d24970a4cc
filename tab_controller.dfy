/**
 * The time window of a timeline tab: the whole timeline spans
 * `timelineMinTime`..`timelineMaxTime`, and the part on screen spans
 * `selectedViewMin`..`selectedViewMax`. `TabController` scrolls the window
 * and drags either of its ends, refusing any move that would take the window
 * out of the timeline or make it narrower than ten minutes. Times are whole
 * seconds.
 */
module TabControllerModel {
  /** `MIN_RANGE`: ten minutes. */
  const MinRange: int := 10 * 60

  /** The four instants of a tab, as a value. */
  datatype Window = Window(timelineMinTime: int, timelineMaxTime: int, selectedViewMin: int, selectedViewMax: int)

  /** The selected view lies strictly inside the timeline. */
  predicate Inside(w: Window)
  {
    w.timelineMinTime < w.selectedViewMin && w.selectedViewMax < w.timelineMaxTime
  }

  function Width(w: Window): int
  {
    w.selectedViewMax - w.selectedViewMin
  }

  /** `moveTimeRange`: both ends shift by `delta` when both stay strictly inside the timeline. */
  function Moved(w: Window, delta: int): (r: Window)
    ensures r == w || r == w.(selectedViewMin := w.selectedViewMin + delta, selectedViewMax := w.selectedViewMax + delta)
  {
    var newMin := w.selectedViewMin + delta;
    var newMax := w.selectedViewMax + delta;
    if newMin > w.timelineMinTime && newMax < w.timelineMaxTime then
      w.(selectedViewMin := newMin, selectedViewMax := newMax)
    else w
  }

  /** `moveTimeRangeStart`: the start moves when it stays after the timeline's start and ten minutes before the end. */
  function StartMoved(w: Window, delta: int): (r: Window)
    ensures r == w || r == w.(selectedViewMin := w.selectedViewMin + delta)
  {
    var newStart := w.selectedViewMin + delta;
    if newStart > w.timelineMinTime && newStart < w.selectedViewMax - MinRange then
      w.(selectedViewMin := newStart)
    else w
  }

  /** `moveTimeRangeEnd`: the end moves when it stays before the timeline's end and ten minutes after the start. */
  function EndMoved(w: Window, delta: int): (r: Window)
    ensures r == w || r == w.(selectedViewMax := w.selectedViewMax + delta)
  {
    var newEnd := w.selectedViewMax + delta;
    if newEnd < w.timelineMaxTime && newEnd > w.selectedViewMin + MinRange then
      w.(selectedViewMax := newEnd)
    else w
  }

  /** A move happens exactly when both shifted ends are strictly inside the timeline, and it keeps the width. */
  lemma {:induction false} MovedCases(w: Window, delta: int)
    ensures Moved(w, delta).selectedViewMin == w.selectedViewMin + delta
            <==> delta == 0 || (w.timelineMinTime < w.selectedViewMin + delta && w.selectedViewMax + delta < w.timelineMaxTime)
    ensures Width(Moved(w, delta)) == Width(w)
    ensures Moved(w, delta).timelineMinTime == w.timelineMinTime && Moved(w, delta).timelineMaxTime == w.timelineMaxTime
  {
  }

  /** Scrolling keeps the view strictly inside the timeline. */
  lemma {:induction false} MovedStaysInside(w: Window, delta: int)
    requires Inside(w)
    ensures Inside(Moved(w, delta))
  {
  }

  /** Dragging the start changes nothing else, and a successful drag leaves the view wider than ten minutes. */
  lemma {:induction false} StartMovedCases(w: Window, delta: int)
    ensures StartMoved(w, delta).(selectedViewMin := w.selectedViewMin) == w
    ensures StartMoved(w, delta) != w ==> Width(StartMoved(w, delta)) > MinRange && StartMoved(w, delta).selectedViewMin > w.timelineMinTime
    ensures StartMoved(w, delta).selectedViewMin == w.selectedViewMin + delta
            <==> delta == 0 || (w.timelineMinTime < w.selectedViewMin + delta < w.selectedViewMax - MinRange)
  {
  }

  /** Dragging the end changes nothing else, and a successful drag leaves the view wider than ten minutes. */
  lemma {:induction false} EndMovedCases(w: Window, delta: int)
    ensures EndMoved(w, delta).(selectedViewMax := w.selectedViewMax) == w
    ensures EndMoved(w, delta) != w ==> Width(EndMoved(w, delta)) > MinRange && EndMoved(w, delta).selectedViewMax < w.timelineMaxTime
    ensures EndMoved(w, delta).selectedViewMax == w.selectedViewMax + delta
            <==> delta == 0 || (w.selectedViewMin + MinRange < w.selectedViewMax + delta < w.timelineMaxTime)
  {
  }

  /** All three operations keep the view inside the timeline. */
  lemma {:induction false} ResizesStayInside(w: Window, delta: int)
    requires Inside(w)
    ensures Inside(StartMoved(w, delta)) && Inside(EndMoved(w, delta))
  {
  }

  /** `TabState`: the mutable instants of one tab. */
  class TabState {
    var timelineMinTime: int
    var timelineMaxTime: int
    var selectedViewMin: int
    var selectedViewMax: int

    constructor(timelineMinTime: int, timelineMaxTime: int, selectedViewMin: int, selectedViewMax: int)
      ensures Current() == Window(timelineMinTime, timelineMaxTime, selectedViewMin, selectedViewMax)
    {
      this.timelineMinTime := timelineMinTime;
      this.timelineMaxTime := timelineMaxTime;
      this.selectedViewMin := selectedViewMin;
      this.selectedViewMax := selectedViewMax;
    }

    function Current(): Window
      reads this
    {
      Window(timelineMinTime, timelineMaxTime, selectedViewMin, selectedViewMax)
    }
  }

  class TabController {
    const tabState: TabState

    constructor(tabState: TabState)
      ensures this.tabState == tabState
    {
      this.tabState := tabState;
    }

    method MoveTimeRange(delta: int)
      modifies tabState
      ensures tabState.Current() == Moved(old(tabState.Current()), delta)
    {
      var newMin := tabState.selectedViewMin + delta;
      var newMax := tabState.selectedViewMax + delta;
      if newMin > tabState.timelineMinTime && newMax < tabState.timelineMaxTime {
        tabState.selectedViewMin := newMin;
        tabState.selectedViewMax := newMax;
      }
    }

    method MoveTimeRangeStart(delta: int)
      modifies tabState
      ensures tabState.Current() == StartMoved(old(tabState.Current()), delta)
    {
      var newStartTime := tabState.selectedViewMin + delta;
      if newStartTime > tabState.timelineMinTime && newStartTime < tabState.selectedViewMax - MinRange {
        tabState.selectedViewMin := newStartTime;
      }
    }

    method MoveTimeRangeEnd(delta: int)
      modifies tabState
      ensures tabState.Current() == EndMoved(old(tabState.Current()), delta)
    {
      var newEndTime := tabState.selectedViewMax + delta;
      if newEndTime < tabState.timelineMaxTime && newEndTime > tabState.selectedViewMin + MinRange {
        tabState.selectedViewMax := newEndTime;
      }
    }

    /** The listener on the application clock: every change of the current time scrolls the view by one second. */
    method OnTimeNowChanged()
      modifies tabState
      ensures tabState.Current() == Moved(old(tabState.Current()), 1)
    {
      MoveTimeRange(1);
    }
  }
}
