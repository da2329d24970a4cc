/**
 * `DataUpdatesHandler.kt`: the two listeners that receive the planner's data
 * updates. `GuiDataHandler` hands every update to the presenter.
 * `DataUpdatesServerSender` forwards them to the shared master/slave state,
 * but sends an airport's timeline events at most once every two seconds.
 * Instants are milliseconds, and the NTP clock reading is the parameter
 * `now`; the payloads (timeline events, runway statuses, weather, lists)
 * are values of the type parameter `P`.
 */
module DataUpdatesHandlerModel {
  import opened Wrappers

  /** Two seconds, the least gap between two timeline uploads for one airport. */
  const ThrottleMillis: int := 2000

  /** One call of `DataUpdateListener`, with its airport. */
  datatype Update<P> =
    | TimelineEventsUpdated(airportIcao: string, payload: P)
    | RunwayModesUpdated(airportIcao: string, payload: P)
    | WeatherDataUpdated(airportIcao: string, payload: P)
    | NonSequencedListUpdated(airportIcao: string, payload: P)
    | MinimumSpacingUpdated(airportIcao: string, payload: P)

  /**
   * The throttle of `onTimelineEventsUpdated`: given when each airport was
   * last sent, whether timeline events for `airportIcao` go out at `now`.
   */
  predicate SendsTimeline(sendUpdateMem: map<string, int>, airportIcao: string, now: int)
  {
    airportIcao !in sendUpdateMem || now - sendUpdateMem[airportIcao] > ThrottleMillis
  }

  /**
   * What the sender does with one update: the new memory of last sends, and
   * the update it passes on, if any. Only timeline events are throttled.
   */
  function Send<P>(sendUpdateMem: map<string, int>, u: Update<P>, now: int): (r: (map<string, int>, Option<Update<P>>))
    ensures r.1.Some? ==> r.1.value == u
    ensures !u.TimelineEventsUpdated? ==> r == (sendUpdateMem, Some(u))
    ensures u.TimelineEventsUpdated? ==>
              r == if SendsTimeline(sendUpdateMem, u.airportIcao, now)
                   then (sendUpdateMem[u.airportIcao := now], Some(u))
                   else (sendUpdateMem, None)
  {
    if u.TimelineEventsUpdated? then
      if u.airportIcao in sendUpdateMem && now - sendUpdateMem[u.airportIcao] <= ThrottleMillis then (sendUpdateMem, None)
      else (sendUpdateMem[u.airportIcao := now], Some(u))
    else (sendUpdateMem, Some(u))
  }

  /** The memory changes only when a send happens, and only for the sending airport. */
  lemma {:induction false} SendRemembersOnlySends<P>(sendUpdateMem: map<string, int>, u: Update<P>, now: int)
    ensures var (mem, sent) := Send(sendUpdateMem, u, now);
            && (mem != sendUpdateMem ==> sent.Some? && u.TimelineEventsUpdated?)
            && (forall a | a != u.airportIcao :: (a in mem <==> a in sendUpdateMem) && (a in mem ==> mem[a] == sendUpdateMem[a]))
  {
  }

  /** Airports do not throttle each other: an update for one airport leaves another's decision as it was. */
  lemma {:induction false} ThrottlePerAirport<P>(sendUpdateMem: map<string, int>, u: Update<P>, now: int, other: string, later: int)
    requires other != u.airportIcao
    ensures SendsTimeline(Send(sendUpdateMem, u, now).0, other, later) == SendsTimeline(sendUpdateMem, other, later)
  {
  }

  /** Two timeline uploads for one airport that both go out are more than two seconds apart. */
  lemma {:induction false} SendsSpaced<P>(sendUpdateMem: map<string, int>, first: Update<P>, second: Update<P>, t1: int, t2: int)
    requires first.TimelineEventsUpdated? && second.TimelineEventsUpdated? && first.airportIcao == second.airportIcao
    requires Send(sendUpdateMem, first, t1).1.Some?
    requires Send(Send(sendUpdateMem, first, t1).0, second, t2).1.Some?
    ensures t2 - t1 > ThrottleMillis
  {
  }

  /** `DataUpdatesServerSender`: `sent` is what has gone to the shared state, in order. */
  class DataUpdatesServerSender<P> {
    var sendUpdateMem: map<string, int>
    var sent: seq<Update<P>>

    constructor()
      ensures sendUpdateMem == map[] && sent == []
    {
      sendUpdateMem := map[];
      sent := [];
    }

    method OnUpdate(u: Update<P>, now: int)
      modifies this
      ensures var (mem, out) := Send(old(sendUpdateMem), u, now);
              sendUpdateMem == mem && sent == old(sent) + (if out.Some? then [out.value] else [])
    {
      if u.TimelineEventsUpdated? {
        if u.airportIcao in sendUpdateMem && now - sendUpdateMem[u.airportIcao] <= ThrottleMillis {
          return;
        }
        sent := sent + [u];
        sendUpdateMem := sendUpdateMem[u.airportIcao := now];
      } else {
        sent := sent + [u];
      }
    }
  }

  /** `GuiDataHandler`: `delivered` is what the presenter has received, in order. */
  class GuiDataHandler<P> {
    var delivered: seq<Update<P>>

    constructor()
      ensures delivered == []
    {
      delivered := [];
    }

    method OnUpdate(u: Update<P>)
      modifies this
      ensures delivered == old(delivered) + [u]
    {
      delivered := delivered + [u];
    }
  }
}
