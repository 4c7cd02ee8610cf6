/** Service-id assignment and the stop_times table. */
module StopTimes {
  import opened Results
  import opened Text
  import opened Tables
  import opened Records

  // ---------------------------------------------------------------------------
  // Direction

  /** `get_direction`: inbound is 0, outbound is 1, anything else is an error. */
  function Direction(direction: string): (r: Result<int>)
    ensures r == Ok(0) <==> direction == "inbound"
    ensures r == Ok(1) <==> direction == "outbound"
    ensures r.Err? <==> direction != "inbound" && direction != "outbound"
    ensures r.Err? ==> r.error == ValueError
  {
    if direction == "inbound" then Ok(0)
    else if direction == "outbound" then Ok(1)
    else Err(ValueError)
  }

  // ---------------------------------------------------------------------------
  // Service ids

  function TripOf(row: InfoRow): TripAttrs { row.trip }

  function JourneyId(t: TripAttrs): string { t.vehicleJourneyId }

  /** The trip attributes of each row. */
  function TripsOf(rows: seq<InfoRow>): seq<TripAttrs> {
    KeysOf(rows, TripOf)
  }

  /** `drop_duplicates(subset=['vehicle_journey_id'])`: the first row of each
      vehicle journey. */
  function CalendarInfo(rows: seq<InfoRow>): seq<TripAttrs> {
    DistinctBy(TripsOf(rows), JourneyId)
  }

  /** The weekday strings of the journeys that have one (`groupby` drops the
      journeys without). */
  function WeekdayValues(info: seq<TripAttrs>): (r: seq<string>)
    ensures forall w :: w in r <==> exists t :: t in info && t.weekdays == Some(w)
    decreases |info|
  {
    if |info| == 0 then []
    else
      var init := info[..|info| - 1];
      var last := info[|info| - 1];
      assert info == init + [last];
      WeekdayValues(init) + (match last.weekdays case Some(w) => [w] case None => [])
  }

  /** The groups in the order `groupby` visits them: each weekday string once,
      ascending. */
  function WeekdayGroups(info: seq<TripAttrs>): (r: seq<string>)
    ensures StrictlySorted(r)
    ensures forall w :: w in r <==> exists t :: t in info && t.weekdays == Some(w)
  {
    var values := WeekdayValues(info);
    UniqueProperties(values);
    SortDistinct(Unique(values))
  }

  /** The journeys (first rows) of one weekday group, in order. */
  function Group(info: seq<TripAttrs>, w: string): (g: seq<TripAttrs>)
    ensures forall t :: t in g <==> t in info && t.weekdays == Some(w)
  {
    Filter(info, (t: TripAttrs) => t.weekdays == Some(w))
  }

  /** The service id of a group: service reference, start and end date of its
      first journey, then the weekday string, joined with `_`. */
  function GroupServiceId(group: seq<TripAttrs>, w: string): string
    requires |group| > 0
  {
    group[0].serviceRef + "_" + group[0].startDate + "_" + group[0].endDate + "_" + w
  }

  /** The service id a journey holds after the groups ws have been visited:
      that of the last group listing it. */
  function IdAfter(info: seq<TripAttrs>, ws: seq<string>, v: string): Option<string>
    decreases |ws|
  {
    if |ws| == 0 then None
    else
      var w := ws[|ws| - 1];
      var g := Group(info, w);
      if v in KeysOf(g, JourneyId) then Some(GroupServiceId(g, w)) else IdAfter(info, ws[..|ws| - 1], v)
  }

  /** The weekday string of journey v, from its first row. */
  function JourneyWeekdays(info: seq<TripAttrs>, v: string): Option<string> {
    if HasKey(info, JourneyId, v) then info[FirstIndex(info, JourneyId, v)].weekdays else None
  }

  /** The service id `generate_service_id` gives to the rows of journey v:
      that of the group of v's weekday string, None when v has none. */
  function JourneyServiceId(rows: seq<InfoRow>, v: string): Option<string> {
    var info := CalendarInfo(rows);
    match JourneyWeekdays(info, v)
    case None => None
    case Some(w) =>
      var g := Group(info, w);
      if |g| == 0 then None else Some(GroupServiceId(g, w))
  }

  /** The rows with their new service ids. */
  function WithServiceIds(rows: seq<InfoRow>): (r: seq<InfoRow>)
    ensures |r| == |rows|
    ensures forall k :: 0 <= k < |rows| ==>
      r[k] == rows[k].(serviceId := JourneyServiceId(rows, rows[k].trip.vehicleJourneyId))
  {
    seq(|rows|, k requires 0 <= k < |rows| =>
      rows[k].(serviceId := JourneyServiceId(rows, rows[k].trip.vehicleJourneyId)))
  }

  /** Every row is its original with the service id journey v would hold
      after the groups ws. */
  predicate AssignedAfter(now: seq<InfoRow>, rows: seq<InfoRow>, info: seq<TripAttrs>, ws: seq<string>) {
    |now| == |rows| &&
    forall k :: 0 <= k < |rows| ==> now[k] == rows[k].(serviceId := IdAfter(info, ws, rows[k].trip.vehicleJourneyId))
  }

  /** `stop_times['service_id'] = None`. */
  method ClearServiceIds(stopTimes: array<InfoRow>)
    modifies stopTimes
    ensures forall k :: 0 <= k < stopTimes.Length ==> stopTimes[k] == old(stopTimes[k]).(serviceId := None)
  {
    for i := 0 to stopTimes.Length
      invariant forall k :: 0 <= k < i ==> stopTimes[k] == old(stopTimes[k]).(serviceId := None)
      invariant forall k :: i <= k < stopTimes.Length ==> stopTimes[k] == old(stopTimes[k])
    {
      stopTimes[i] := stopTimes[i].(serviceId := None);
    }
  }

  /** `stop_times.loc[vehicle_journey_id.isin(ids), 'service_id'] = serviceId`. */
  method SetServiceId(stopTimes: array<InfoRow>, journeyIds: seq<string>, serviceId: string)
    modifies stopTimes
    ensures forall k :: 0 <= k < stopTimes.Length ==>
      stopTimes[k] == if old(stopTimes[k]).trip.vehicleJourneyId in journeyIds
        then old(stopTimes[k]).(serviceId := Some(serviceId)) else old(stopTimes[k])
  {
    for i := 0 to stopTimes.Length
      invariant forall k :: 0 <= k < i ==>
        stopTimes[k] == if old(stopTimes[k]).trip.vehicleJourneyId in journeyIds
          then old(stopTimes[k]).(serviceId := Some(serviceId)) else old(stopTimes[k])
      invariant forall k :: i <= k < stopTimes.Length ==> stopTimes[k] == old(stopTimes[k])
    {
      if stopTimes[i].trip.vehicleJourneyId in journeyIds {
        stopTimes[i] := stopTimes[i].(serviceId := Some(serviceId));
      }
    }
  }

  /** `generate_service_id`, in place: the service_id column is cleared, then
      every weekday group writes its id onto all rows of its journeys. No
      other column changes. */
  method GenerateServiceId(stopTimes: array<InfoRow>)
    modifies stopTimes
    ensures stopTimes[..] == WithServiceIds(old(stopTimes[..]))
  {
    ghost var rows := stopTimes[..];
    ClearServiceIds(stopTimes);
    var calendarInfo := CalendarInfo(stopTimes[..]);
    SameTrips(stopTimes[..], rows);
    var groups := WeekdayGroups(calendarInfo);
    assert AssignedAfter(stopTimes[..], rows, calendarInfo, groups[..0]);
    for g := 0 to |groups|
      invariant AssignedAfter(stopTimes[..], rows, calendarInfo, groups[..g])
    {
      var weekday := groups[g];
      var cgroup := Group(calendarInfo, weekday);
      var journeyIds := KeysOf(cgroup, JourneyId);
      IdAfterStep(calendarInfo, groups, g);
      GroupNonEmpty(calendarInfo, weekday);
      var serviceId := GroupServiceId(cgroup, weekday);
      SetServiceId(stopTimes, journeyIds, serviceId);
    }
    assert groups[..|groups|] == groups;
    forall k | 0 <= k < |rows|
      ensures stopTimes[k] == rows[k].(serviceId := JourneyServiceId(rows, rows[k].trip.vehicleJourneyId))
    {
      IdAfterAll(rows, rows[k].trip.vehicleJourneyId);
    }
  }

  /** Clearing the service ids leaves the trip attributes alone. */
  lemma SameTrips(now: seq<InfoRow>, rows: seq<InfoRow>)
    requires |now| == |rows| && forall k :: 0 <= k < |rows| ==> now[k] == rows[k].(serviceId := None)
    ensures CalendarInfo(now) == CalendarInfo(rows)
  {
    assert TripsOf(now) == TripsOf(rows);
  }

  lemma IdAfterStep(info: seq<TripAttrs>, ws: seq<string>, g: int)
    requires 0 <= g < |ws|
    ensures forall v ::
      IdAfter(info, ws[..g + 1], v) == (var grp := Group(info, ws[g]);
        if v in KeysOf(grp, JourneyId) then Some(GroupServiceId(grp, ws[g])) else IdAfter(info, ws[..g], v))
  {
    assert ws[..g + 1][..g] == ws[..g];
    assert ws[..g + 1][g] == ws[g];
  }

  /** Every weekday string that occurs has a non-empty group. */
  lemma GroupNonEmpty(info: seq<TripAttrs>, w: string)
    requires w in WeekdayGroups(info)
    ensures |Group(info, w)| > 0
  {
    var t :| t in info && t.weekdays == Some(w);
    assert t in Group(info, w);
  }

  /** Journey v is listed by group w exactly when its first row has weekday
      string w. */
  lemma GroupMembership(info: seq<TripAttrs>, w: string, v: string)
    requires forall i, j :: 0 <= i < j < |info| ==> JourneyId(info[i]) != JourneyId(info[j])
    ensures v in KeysOf(Group(info, w), JourneyId) <==> JourneyWeekdays(info, v) == Some(w)
  {
    var g := Group(info, w);
    var ks := KeysOf(g, JourneyId);
    if v in ks {
      var i :| 0 <= i < |ks| && ks[i] == v;
      assert g[i] in g;
      var j :| 0 <= j < |info| && info[j] == g[i];
      assert HasKey(info, JourneyId, v) by { assert JourneyId(info[j]) == v; }
      var f := FirstIndex(info, JourneyId, v);
      assert f == j;
    }
    if JourneyWeekdays(info, v) == Some(w) {
      var f := FirstIndex(info, JourneyId, v);
      assert info[f] in g;
      var i :| 0 <= i < |g| && g[i] == info[f];
      assert ks[i] == v;
    }
  }

  /** The visited groups settle on the group of the journey's own weekday
      string, when that string is among them. */
  lemma {:induction false} IdAfterSpec(info: seq<TripAttrs>, ws: seq<string>, v: string)
    requires forall i, j :: 0 <= i < j < |info| ==> JourneyId(info[i]) != JourneyId(info[j])
    ensures IdAfter(info, ws, v) ==
      match JourneyWeekdays(info, v)
      case Some(w) => if w in ws && |Group(info, w)| > 0 then Some(GroupServiceId(Group(info, w), w)) else None
      case None => None
    decreases |ws|
  {
    if |ws| > 0 {
      var init := ws[..|ws| - 1];
      var w := ws[|ws| - 1];
      assert ws == init + [w];
      GroupMembership(info, w, v);
      IdAfterSpec(info, init, v);
      if JourneyWeekdays(info, v) == Some(w) {
        assert v in KeysOf(Group(info, w), JourneyId);
      }
    }
  }

  /** After all groups, a journey holds the id of its own group. */
  lemma IdAfterAll(rows: seq<InfoRow>, v: string)
    ensures IdAfter(CalendarInfo(rows), WeekdayGroups(CalendarInfo(rows)), v) == JourneyServiceId(rows, v)
  {
    var info := CalendarInfo(rows);
    assert info == DistinctBy(TripsOf(rows), JourneyId);
    DistinctByKeysDistinct(TripsOf(rows), JourneyId);
    IdAfterSpec(info, WeekdayGroups(info), v);
    WeekdaysListed(info, v);
  }

  /** A journey's weekday string is one of the groups. */
  lemma WeekdaysListed(info: seq<TripAttrs>, v: string)
    ensures JourneyWeekdays(info, v).Some? ==> JourneyWeekdays(info, v).value in WeekdayGroups(info)
  {
    if JourneyWeekdays(info, v).Some? {
      var f := FirstIndex(info, JourneyId, v);
      assert info[f] in info;
    }
  }

  // ---------------------------------------------------------------------------
  // What the service ids mean

  /** The rows of one vehicle journey all carry the same weekday string, as
      the rows the converter builds do. */
  predicate WeekdaysPerJourney(rows: seq<InfoRow>) {
    forall a, b :: 0 <= a < |rows| && 0 <= b < |rows| && rows[a].trip.vehicleJourneyId == rows[b].trip.vehicleJourneyId
      ==> rows[a].trip.weekdays == rows[b].trip.weekdays
  }

  predicate SameServicePeriod(t: TripAttrs, u: TripAttrs) {
    t.serviceRef == u.serviceRef && t.startDate == u.startDate && t.endDate == u.endDate
  }

  /** When all rows of a journey carry the same weekday string, that string
      decides the journey's group. */
  lemma JourneyWeekdaysOfRows(rows: seq<InfoRow>, k: int)
    requires 0 <= k < |rows|
    requires forall i :: 0 <= i < |rows| && rows[i].trip.vehicleJourneyId == rows[k].trip.vehicleJourneyId ==>
      rows[i].trip.weekdays == rows[k].trip.weekdays
    ensures JourneyWeekdays(CalendarInfo(rows), rows[k].trip.vehicleJourneyId) == rows[k].trip.weekdays
  {
    var trips := TripsOf(rows);
    var info := CalendarInfo(rows);
    var v := rows[k].trip.vehicleJourneyId;
    assert info == DistinctBy(trips, JourneyId);
    DistinctByProperties(trips, JourneyId);
    assert HasKey(trips, JourneyId, v) by { assert JourneyId(trips[k]) == v; }
    var f := FirstIndex(info, JourneyId, v);
    assert info[f] == trips[FirstIndex(trips, JourneyId, v)];
  }

  /** A group's id is built from a journey of that group: its service
      reference, start and end date, and the weekday string. */
  lemma GroupServiceIdOrigin(rows: seq<InfoRow>, v: string, w: string)
    requires JourneyWeekdays(CalendarInfo(rows), v) == Some(w)
    ensures exists i ::
      && 0 <= i < |rows|
      && rows[i].trip.weekdays == Some(w)
      && JourneyServiceId(rows, v) ==
           Some(rows[i].trip.serviceRef + "_" + rows[i].trip.startDate + "_" + rows[i].trip.endDate + "_" + w)
  {
    var trips := TripsOf(rows);
    var info := CalendarInfo(rows);
    assert info == DistinctBy(trips, JourneyId);
    DistinctByProperties(trips, JourneyId);
    var f := FirstIndex(info, JourneyId, v);
    var g := Group(info, w);
    assert info[f] in g;
    assert g[0] in info;
    var m :| 0 <= m < |info| && info[m] == g[0];
    var i := FirstIndex(trips, JourneyId, JourneyId(info[m]));
    assert trips[i] == g[0];
    assert rows[i].trip == g[0];
    assert JourneyServiceId(rows, v) == Some(GroupServiceId(g, w));
    assert rows[i].trip.weekdays == Some(w);
  }

  /** All journeys with the same weekday string get the same service id; the
      service reference and dates of the others do not matter. */
  lemma SameWeekdaysShareServiceId(rows: seq<InfoRow>, i: int, j: int)
    requires 0 <= i < |rows| && 0 <= j < |rows|
    requires WeekdaysPerJourney(rows)
    requires rows[i].trip.weekdays.Some? && rows[i].trip.weekdays == rows[j].trip.weekdays
    ensures WithServiceIds(rows)[i].serviceId == WithServiceIds(rows)[j].serviceId
    ensures WithServiceIds(rows)[i].serviceId.Some?
  {
    JourneyWeekdaysOfRows(rows, i);
    JourneyWeekdaysOfRows(rows, j);
    GroupServiceIdOrigin(rows, rows[i].trip.vehicleJourneyId, rows[i].trip.weekdays.value);
  }

  /** A journey without a weekday string keeps no service id. */
  lemma NoWeekdaysNoServiceId(rows: seq<InfoRow>, i: int)
    requires 0 <= i < |rows|
    requires forall a :: 0 <= a < |rows| && rows[a].trip.vehicleJourneyId == rows[i].trip.vehicleJourneyId ==>
      rows[a].trip.weekdays.None?
    ensures WithServiceIds(rows)[i].serviceId == None
  {
    JourneyWeekdaysOfRows(rows, i);
  }

  /** When every row has the same service reference and dates, different
      weekday strings give different service ids, because the weekday string
      is the id's suffix. */
  lemma DistinctWeekdaysDistinctIds(rows: seq<InfoRow>, i: int, j: int)
    requires 0 <= i < |rows| && 0 <= j < |rows|
    requires WeekdaysPerJourney(rows)
    requires forall a :: 0 <= a < |rows| ==> SameServicePeriod(rows[a].trip, rows[0].trip)
    requires rows[i].trip.weekdays.Some? && rows[j].trip.weekdays.Some?
    requires rows[i].trip.weekdays != rows[j].trip.weekdays
    ensures WithServiceIds(rows)[i].serviceId != WithServiceIds(rows)[j].serviceId
  {
    var wi, wj := rows[i].trip.weekdays.value, rows[j].trip.weekdays.value;
    var prefix := rows[0].trip.serviceRef + "_" + rows[0].trip.startDate + "_" + rows[0].trip.endDate + "_";
    JourneyWeekdaysOfRows(rows, i);
    JourneyWeekdaysOfRows(rows, j);
    GroupServiceIdOrigin(rows, rows[i].trip.vehicleJourneyId, wi);
    GroupServiceIdOrigin(rows, rows[j].trip.vehicleJourneyId, wj);
    assert WithServiceIds(rows)[i].serviceId == Some(prefix + wi);
    assert WithServiceIds(rows)[j].serviceId == Some(prefix + wj);
    assert (prefix + wi)[|prefix|..] == wi;
    assert (prefix + wj)[|prefix|..] == wj;
  }

  // ---------------------------------------------------------------------------
  // The stop_times table

  /** A row of stop_times.txt. */
  datatype StopTime = StopTime(
    tripId: string, arrivalTime: string, departureTime: string, stopId: string, stopSequence: int, timepoint: int)

  function StopTimeOf(row: InfoRow): StopTime {
    StopTime(row.tripId, row.arrivalTime, row.departureTime, row.stopId, row.stopSequence, row.timepoint)
  }

  function TripIdOf(x: StopTime): string { x.tripId }

  /** The rows of trip t, in order. */
  function TripRows(st: seq<StopTime>, t: string): (r: seq<StopTime>)
    ensures |r| <= |st|
    ensures forall x :: x in r <==> x in st && x.tripId == t
    decreases |st|
  {
    if |st| == 0 then []
    else
      var init := st[..|st| - 1];
      var last := st[|st| - 1];
      assert st == init + [last];
      TripRows(init, t) + (if last.tripId == t then [last] else [])
  }

  /** The trips in `groupby` order: each trip id once, ascending. */
  function TripIds(st: seq<StopTime>): (r: seq<string>)
    ensures StrictlySorted(r)
    ensures forall t :: t in r <==> exists x :: x in st && x.tripId == t
  {
    var ids := KeysOf(st, TripIdOf);
    UniqueProperties(ids);
    assert forall t :: t in ids <==> exists x :: x in st && x.tripId == t by {
      forall t ensures t in ids <==> exists x :: x in st && x.tripId == t {
        if exists x :: x in st && x.tripId == t {
          var x :| x in st && x.tripId == t;
          var k :| 0 <= k < |st| && st[k] == x;
          assert ids[k] == t;
        }
      }
    }
    SortDistinct(Unique(ids))
  }

  /** The groups of the trips ids that have more than one row, one after the
      other. */
  function KeptGroups(st: seq<StopTime>, ids: seq<string>): seq<StopTime>
    decreases |ids|
  {
    if |ids| == 0 then []
    else
      var g := TripRows(st, ids[|ids| - 1]);
      KeptGroups(st, ids[..|ids| - 1]) + (if |g| > 1 then g else [])
  }

  /** The six stop_times columns without exact duplicates. */
  function StopTimeColumns(gtfsInfo: seq<InfoRow>): seq<StopTime> {
    Unique(KeysOf(gtfsInfo, StopTimeOf))
  }

  /** What `get_stop_times` returns. */
  function StopTimesOf(gtfsInfo: seq<InfoRow>): seq<StopTime> {
    var st := StopTimeColumns(gtfsInfo);
    KeptGroups(st, TripIds(st))
  }

  /** `get_stop_times`. */
  method GetStopTimes(gtfsInfo: seq<InfoRow>) returns (filtered: seq<StopTime>)
    ensures filtered == StopTimesOf(gtfsInfo)
  {
    var stopTimes := StopTimeColumns(gtfsInfo);
    var grouped := TripIds(stopTimes);
    filtered := [];
    for g := 0 to |grouped|
      invariant filtered == KeptGroups(stopTimes, grouped[..g])
    {
      var group := TripRows(stopTimes, grouped[g]);
      assert grouped[..g + 1][..g] == grouped[..g];
      if |group| > 1 {
        filtered := filtered + group;
      }
    }
    assert grouped[..|grouped|] == grouped;
  }

  lemma {:induction false} TripRowsAppend(a: seq<StopTime>, b: seq<StopTime>, t: string)
    ensures TripRows(a + b, t) == TripRows(a, t) + TripRows(b, t)
    decreases |b|
  {
    if |b| > 0 {
      var binit := b[..|b| - 1];
      TripRowsAppend(a, binit, t);
      assert (a + b)[..|a + b| - 1] == a + binit;
      assert (a + b)[|a + b| - 1] == b[|b| - 1];
    } else {
      assert a + b == a;
    }
  }

  /** Selecting trip t from trip u's rows gives them all when t is u and none
      otherwise. */
  lemma {:induction false} TripRowsOfTrip(st: seq<StopTime>, u: string, t: string)
    ensures TripRows(TripRows(st, u), t) == if u == t then TripRows(st, u) else []
    decreases |st|
  {
    if |st| > 0 {
      var init := st[..|st| - 1];
      var last := st[|st| - 1];
      TripRowsOfTrip(init, u, t);
      var extra := if last.tripId == u then [last] else [];
      TripRowsAppend(TripRows(init, u), extra, t);
      if last.tripId == u {
        assert TripRows(extra, t) == TripRows([], t) + (if last.tripId == t then [last] else []);
      }
    }
  }

  /** The output rows of trip t are all of t's rows when t has more than one,
      and none otherwise. */
  lemma {:induction false} KeptGroupsOfTrip(st: seq<StopTime>, ids: seq<string>, t: string)
    requires forall i, j :: 0 <= i < j < |ids| ==> ids[i] != ids[j]
    ensures TripRows(KeptGroups(st, ids), t) == if t in ids && |TripRows(st, t)| > 1 then TripRows(st, t) else []
    decreases |ids|
  {
    if |ids| > 0 {
      var init := ids[..|ids| - 1];
      var u := ids[|ids| - 1];
      assert ids == init + [u];
      KeptGroupsOfTrip(st, init, t);
      var g := TripRows(st, u);
      var extra := if |g| > 1 then g else [];
      TripRowsAppend(KeptGroups(st, init), extra, t);
      TripRowsOfTrip(st, u, t);
      assert u !in init;
    }
  }

  lemma KeptByTrip(st: seq<StopTime>, t: string)
    ensures TripRows(KeptGroups(st, TripIds(st)), t) == if |TripRows(st, t)| > 1 then TripRows(st, t) else []
  {
    var ids := TripIds(st);
    SortedDistinct(ids);
    KeptGroupsOfTrip(st, ids, t);
    if |TripRows(st, t)| > 1 {
      var x := TripRows(st, t)[0];
      assert x in st && x.tripId == t;
      assert t in ids;
    }
  }

  /** `get_stop_times` keeps a trip with all of its distinct rows when it has
      more than one, and drops it otherwise. */
  lemma StopTimesByTrip(gtfsInfo: seq<InfoRow>, t: string)
    ensures var st := StopTimeColumns(gtfsInfo);
      TripRows(StopTimesOf(gtfsInfo), t) == if |TripRows(st, t)| > 1 then TripRows(st, t) else []
  {
    KeptByTrip(StopTimeColumns(gtfsInfo), t);
  }

  /** Every trip of the output has at least two rows, and its rows are
      exactly the distinct stop-time rows of that trip in the input. */
  lemma StopTimesKeepSequences(gtfsInfo: seq<InfoRow>, x: StopTime)
    requires x in StopTimesOf(gtfsInfo)
    ensures |TripRows(StopTimesOf(gtfsInfo), x.tripId)| >= 2
    ensures forall y: StopTime :: y.tripId == x.tripId ==>
      (y in StopTimesOf(gtfsInfo) <==> exists k :: 0 <= k < |gtfsInfo| && StopTimeOf(gtfsInfo[k]) == y)
  {
    StopTimesByTrip(gtfsInfo, x.tripId);
    var st := StopTimeColumns(gtfsInfo);
    var cols := KeysOf(gtfsInfo, StopTimeOf);
    UniqueProperties(cols);
    assert x in TripRows(StopTimesOf(gtfsInfo), x.tripId);
    forall y: StopTime | y.tripId == x.tripId
      ensures y in StopTimesOf(gtfsInfo) <==> exists k :: 0 <= k < |gtfsInfo| && StopTimeOf(gtfsInfo[k]) == y
    {
      if y in StopTimesOf(gtfsInfo) {
        assert y in TripRows(StopTimesOf(gtfsInfo), x.tripId);
        var k :| 0 <= k < |cols| && cols[k] == y;
      }
      if exists k :: 0 <= k < |gtfsInfo| && StopTimeOf(gtfsInfo[k]) == y {
        var k :| 0 <= k < |gtfsInfo| && StopTimeOf(gtfsInfo[k]) == y;
        assert cols[k] == y;
        assert y in TripRows(st, x.tripId);
      }
    }
  }

  /** A trip with a single row is left out. */
  lemma SingleRowTripDropped(gtfsInfo: seq<InfoRow>, t: string)
    requires |TripRows(StopTimeColumns(gtfsInfo), t)| <= 1
    ensures forall y :: y in StopTimesOf(gtfsInfo) ==> y.tripId != t
  {
    StopTimesByTrip(gtfsInfo, t);
    assert TripRows(StopTimesOf(gtfsInfo), t) == [];
  }
}
