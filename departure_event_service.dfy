/**
 * `DepartureEventService.createRunwayDepartureEvent`: a departure becomes a
 * runway departure event at its CDM take-off time, the calculated one
 * (CTOT) when there is one and the target one (TTOT) otherwise.
 */
module DepartureEventServiceModel {
  import opened Wrappers
  import Search
  import CdmClientModel

  /** The fields of the EuroScope departure that the event copies. */
  datatype Departure = Departure(
    departureIcao: string,
    callsign: string,
    icaoType: string,
    assignedRunway: Option<string>,
    wakeCategory: char,
    trackingController: Option<string>,
    assignedSid: Option<string>)

  datatype DepartureEvent = DepartureEvent(
    airportIcao: string,
    callsign: string,
    icaoType: string,
    scheduledTime: int,
    estimatedTime: int,
    runway: string,
    wakeCategory: char,
    trackingController: Option<string>,
    sid: Option<string>)

  /** The expected take-off time: the first CDM record of the callsign, its CTOT, else its TTOT. */
  function ExpectedTime(callsign: string, cdmDepartures: Option<seq<CdmClientModel.CdmData>>): (r: Option<int>)
    ensures cdmDepartures.None? ==> r.None?
    ensures cdmDepartures.Some? ==>
              var i := Search.FirstIndex(cdmDepartures.value, (d: CdmClientModel.CdmData) => d.callsign == callsign);
              && (i.None? ==> r.None?)
              && (i.Some? ==> var d := cdmDepartures.value[i.value]; r == if d.ctot.Some? then d.ctot else d.ttot)
  {
    if cdmDepartures.None? then None
    else
      var i := Search.FirstIndex(cdmDepartures.value, (d: CdmClientModel.CdmData) => d.callsign == callsign);
      if i.None? then None
      else
        var d := cdmDepartures.value[i.value];
        if d.ctot.Some? then d.ctot else d.ttot
  }

  function CreateRunwayDepartureEvent(departure: Departure, cdmDepartures: Option<seq<CdmClientModel.CdmData>>): (r: Option<DepartureEvent>)
    ensures r.Some? <==> ExpectedTime(departure.callsign, cdmDepartures).Some? && departure.assignedRunway.Some?
    ensures r.Some? ==>
              && r.value.scheduledTime == r.value.estimatedTime == ExpectedTime(departure.callsign, cdmDepartures).value
              && r.value.runway == departure.assignedRunway.value
              && r.value.airportIcao == departure.departureIcao
              && r.value.callsign == departure.callsign
              && r.value.icaoType == departure.icaoType
              && r.value.wakeCategory == departure.wakeCategory
              && r.value.trackingController == departure.trackingController
              && r.value.sid == departure.assignedSid
  {
    var expectedTime := ExpectedTime(departure.callsign, cdmDepartures);
    if expectedTime.None? then None
    else if departure.assignedRunway.None? then None
    else Some(DepartureEvent(
      departure.departureIcao, departure.callsign, departure.icaoType,
      expectedTime.value, expectedTime.value, departure.assignedRunway.value,
      departure.wakeCategory, departure.trackingController, departure.assignedSid))
  }

  /** The CTOT wins over the TTOT, and the TTOT is used only when there is no CTOT. */
  lemma {:induction false} CtotTakesPrecedence(departure: Departure, cdm: seq<CdmClientModel.CdmData>, i: nat)
    requires i < |cdm| && cdm[i].callsign == departure.callsign
    requires forall j | 0 <= j < i :: cdm[j].callsign != departure.callsign
    requires departure.assignedRunway.Some?
    ensures cdm[i].ctot.Some? ==> CreateRunwayDepartureEvent(departure, Some(cdm)) == Some(DepartureEvent(
              departure.departureIcao, departure.callsign, departure.icaoType, cdm[i].ctot.value, cdm[i].ctot.value,
              departure.assignedRunway.value, departure.wakeCategory, departure.trackingController, departure.assignedSid))
    ensures cdm[i].ctot.None? && cdm[i].ttot.Some? ==> CreateRunwayDepartureEvent(departure, Some(cdm)).value.scheduledTime == cdm[i].ttot.value
    ensures cdm[i].ctot.None? && cdm[i].ttot.None? ==> CreateRunwayDepartureEvent(departure, Some(cdm)).None?
  {
    var p := (d: CdmClientModel.CdmData) => d.callsign == departure.callsign;
    assert Search.FirstIndex(cdm, p) == Some(i) by {
      assert p(cdm[i]);
    }
  }
}
