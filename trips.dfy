/** The trips table and the trip headsign lookup. */
module Trips {
  import opened Results
  import opened Tables
  import opened Records

  /** A row of trips.txt. */
  datatype TripRow = TripRow(routeId: string, serviceId: Option<string>, tripId: string, headsign: string, directionId: int)

  /** The columns a trip is deduplicated on. */
  function TripKey(row: InfoRow): (string, Option<string>, string) {
    (row.trip.routeId, row.serviceId, row.tripId)
  }

  function TripRowOf(row: InfoRow): TripRow {
    TripRow(row.trip.routeId, row.serviceId, row.tripId, row.trip.tripHeadsign, row.trip.directionId)
  }

  /** `get_trips`: the first row of every (route, service, trip), in order,
      with the five trips columns. */
  function TripsOf(gtfsInfo: seq<InfoRow>): seq<TripRow> {
    KeysOf(DistinctBy(gtfsInfo, TripKey), TripRowOf)
  }

  /** x is taken from the first row of its (route, service, trip). */
  predicate FromFirstRow(gtfsInfo: seq<InfoRow>, x: TripRow) {
    exists i :: 0 <= i < |gtfsInfo| && x == TripRowOf(gtfsInfo[i]) && !HasKey(gtfsInfo[..i], TripKey, TripKey(gtfsInfo[i]))
  }

  /** Every (route, service, trip) of the input gives exactly one row, which
      is taken from the triple's first row, in order of first appearance. */
  lemma TripsOnePerKey(gtfsInfo: seq<InfoRow>)
    ensures var t := TripsOf(gtfsInfo);
      && (forall k :: (exists m :: 0 <= m < |t| && (t[m].routeId, t[m].serviceId, t[m].tripId) == k) <==>
            HasKey(gtfsInfo, TripKey, k))
      && (forall m1, m2 :: 0 <= m1 < m2 < |t| ==>
            (t[m1].routeId, t[m1].serviceId, t[m1].tripId) != (t[m2].routeId, t[m2].serviceId, t[m2].tripId))
      && (forall m :: 0 <= m < |t| ==> FromFirstRow(gtfsInfo, t[m]))
  {
    var d := DistinctBy(gtfsInfo, TripKey);
    var t := TripsOf(gtfsInfo);
    DistinctByProperties(gtfsInfo, TripKey);
    DistinctByKeysDistinct(gtfsInfo, TripKey);
    assert forall m :: 0 <= m < |t| ==> (t[m].routeId, t[m].serviceId, t[m].tripId) == TripKey(d[m]);
    forall k ensures (exists m :: 0 <= m < |t| && (t[m].routeId, t[m].serviceId, t[m].tripId) == k) <==>
      HasKey(gtfsInfo, TripKey, k)
    {
      if HasKey(gtfsInfo, TripKey, k) {
        assert HasKey(d, TripKey, k);
        var m :| 0 <= m < |d| && TripKey(d[m]) == k;
        assert (t[m].routeId, t[m].serviceId, t[m].tripId) == k;
      }
      if exists m :: 0 <= m < |t| && (t[m].routeId, t[m].serviceId, t[m].tripId) == k {
        var m :| 0 <= m < |t| && (t[m].routeId, t[m].serviceId, t[m].tripId) == k;
        assert TripKey(d[m]) == k;
        assert HasKey(d, TripKey, k);
      }
    }
    forall m | 0 <= m < |t| ensures FromFirstRow(gtfsInfo, t[m]) {
      var i := FirstIndex(gtfsInfo, TripKey, TripKey(d[m]));
      assert t[m] == TripRowOf(gtfsInfo[i]);
    }
  }

  // ---------------------------------------------------------------------------
  // Headsign

  /** `get_trip_headsign`: the ServiceCode element is compared with the
      reference by its text; the Service description when they agree, a
      ValueError otherwise. A missing element, or several Services, fails
      the attribute lookup. */
  function TripHeadsign(doc: Document, serviceRef: string): (r: Result<string>)
    ensures r.Ok? <==> (
      && |doc.services| == 1
      && doc.services[0].serviceCode == Some(serviceRef)
      && doc.services[0].description.Some?)
    ensures r.Ok? ==> r.value == doc.services[0].description.value
    ensures (
      && |doc.services| == 1
      && doc.services[0].serviceCode.Some?
      && doc.services[0].serviceCode != Some(serviceRef)) ==> r == Err(ValueError)
  {
    if |doc.services| != 1 then Err(AttributeError)
    else
      var service := doc.services[0];
      match service.serviceCode
      case None => Err(AttributeError)
      case Some(code) =>
        if code == serviceRef then
          match service.description
          case None => Err(AttributeError)
          case Some(d) => Ok(d)
        else Err(ValueError)
  }

  /** A document whose single Service has code `PB0002032:467` and a
      description: asking for that code gives the description, asking for
      another code is a ValueError. */
  lemma HeadsignExample(doc: Document)
    requires |doc.services| == 1
    requires doc.services[0].serviceCode == Some("PB0002032:467")
    requires doc.services[0].description == Some("Hammersmith - Heathrow")
    ensures TripHeadsign(doc, "PB0002032:467") == Ok("Hammersmith - Heathrow")
    ensures TripHeadsign(doc, "PB0002032:468") == Err(ValueError)
  {
  }
}
