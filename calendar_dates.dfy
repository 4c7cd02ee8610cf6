/** The exception resolver: the bank-holiday labels of the trips and the
    calendar_dates rows that switch each labelled service off on every bank
    holiday of its operating period. */
module CalendarDates {
  import opened Results
  import opened Text
  import opened Tables
  import opened Records
  import Calendar
  import opened BankHolidays

  // ---------------------------------------------------------------------------
  // Label text of an operating profile

  /** The non-operation text of a vehicle journey. */
  method CalendarDatesExceptions(journey: VehicleJourney) returns (r: Option<string>)
    ensures r.Some? <==> journey.daysOfNonOperation.Some?
    ensures r.Some? ==> r.value == Join(journey.daysOfNonOperation.value, "|")
  {
    r := Calendar.ProfileText(journey.daysOfNonOperation);
  }

  /** The non-operation text of the document's service; reaching it through
      `Services.Service` needs exactly one Service element. */
  method ServiceCalendarDatesExceptions(doc: Document) returns (r: Option<string>)
    ensures r.Some? <==> |doc.services| == 1 && doc.services[0].daysOfNonOperation.Some?
    ensures r.Some? ==> r.value == Join(doc.services[0].daysOfNonOperation.value, "|")
  {
    if |doc.services| != 1 {
      r := None;
    } else {
      r := Calendar.ProfileText(doc.services[0].daysOfNonOperation);
    }
  }

  // ---------------------------------------------------------------------------
  // Labels

  /** The labels with a counterpart in the holiday table. */
  predicate KnownHoliday(holiday: string) {
    holiday == "SpringBank" || holiday == "LateSummerBankHolidayNotScotland" || holiday == "MayDay" ||
    holiday == "GoodFriday" || holiday == "EasterMonday"
  }

  /** The labels that raise no warning. */
  predicate Recognized(holiday: string) {
    KnownHoliday(holiday) || holiday == "AllBankHolidays"
  }

  /** The non-null non-operative-days values of the rows, in row order. */
  function NonOperativeTexts(rows: seq<InfoRow>): (r: seq<string>)
    ensures forall v :: v in r <==> exists i :: 0 <= i < |rows| && rows[i].nonOperativeDays == Some(v)
    decreases |rows|
  {
    if |rows| == 0 then []
    else
      var init := rows[..|rows| - 1];
      var last := rows[|rows| - 1];
      assert forall i :: 0 <= i < |init| ==> rows[i] == init[i];
      NonOperativeTexts(init) + (match last.nonOperativeDays case Some(v) => [v] case None => [])
  }

  /** The labels one value contributes: its `|`-separated pieces when it has a
      `|`, the value itself when it is non-empty, nothing otherwise. */
  function Pieces(info: string): seq<string> {
    if '|' in info then Split(info, "|")
    else if info != "" then [info]
    else []
  }

  /** The labels of a list of values, value by value. */
  function LabelList(values: seq<string>): seq<string>
    decreases |values|
  {
    if |values| == 0 then []
    else LabelList(values[..|values| - 1]) + Pieces(values[|values| - 1])
  }

  /** The distinct labels of the frame. */
  function LabelSet(rows: seq<InfoRow>): set<string> {
    set l | l in LabelList(Unique(NonOperativeTexts(rows)))
  }

  /** The labels warned about. */
  function Unrecognized(labels: set<string>): (r: set<string>)
    ensures r <= labels
    ensures forall l :: l in labels ==> (l in r <==> !KnownHoliday(l) && l != "AllBankHolidays")
  {
    set l | l in labels && !Recognized(l)
  }

  /** The loop that gathers the labels of the distinct values. */
  method CollectLabels(values: seq<string>) returns (nonOperatives: seq<string>)
    ensures nonOperatives == LabelList(values)
  {
    nonOperatives := [];
    for k := 0 to |values|
      invariant nonOperatives == LabelList(values[..k])
    {
      var info := values[k];
      assert values[..k + 1][..k] == values[..k];
      if '|' in info {
        var split := Split(info, "|");
        nonOperatives := nonOperatives + split;
      } else {
        if info != "" {
          nonOperatives := nonOperatives + [info];
        }
      }
    }
    assert values[..|values|] == values;
  }

  // ---------------------------------------------------------------------------
  // The calendar_dates rows

  /** A row of calendar_dates.txt. */
  datatype CalendarDate = CalendarDate(serviceId: Option<string>, date: string, exceptionType: int)

  /** The exception type of a date on which the service does not run. */
  const ServiceRemoved: int := 2

  /** The rows eligible for exceptions: those with a non-operative-days value. */
  function Labelled(rows: seq<InfoRow>): (r: seq<InfoRow>)
    ensures forall x :: x in r <==> x in rows && x.nonOperativeDays.Some?
  {
    Filter(rows, (x: InfoRow) => x.nonOperativeDays.Some?)
  }

  function ServiceIdOf(row: InfoRow): Option<string> { row.serviceId }

  /** The service ids of the labelled rows, first row per id. */
  function ServiceIds(rows: seq<InfoRow>): seq<Option<string>> {
    KeysOf(DistinctBy(Labelled(rows), ServiceIdOf), ServiceIdOf)
  }

  /** One service's row per date. */
  function DateRows(id: Option<string>, dates: seq<string>): (r: seq<CalendarDate>)
    ensures |r| == |dates|
    ensures forall j :: 0 <= j < |dates| ==> r[j] == CalendarDate(id, dates[j], ServiceRemoved)
  {
    seq(|dates|, j requires 0 <= j < |dates| => CalendarDate(id, dates[j], ServiceRemoved))
  }

  /** Service by service, one row per date. */
  function ExceptionRows(ids: seq<Option<string>>, dates: seq<string>): seq<CalendarDate>
    decreases |ids|
  {
    if |ids| == 0 then []
    else ExceptionRows(ids[..|ids| - 1], dates) + DateRows(ids[|ids| - 1], dates)
  }

  /** What `get_calendar_dates` produces. */
  function CalendarDatesOf(rows: seq<InfoRow>, table: HolidayTable): Result<Option<seq<CalendarDate>>> {
    if LabelSet(rows) == {} then Ok(None)
    else
      match BankHolidayDates(Labelled(rows), table, DefaultRegion)
      case Err(e) => Err(e)
      case Ok(None) => Ok(None)
      case Ok(Some(dates)) => Ok(Some(ExceptionRows(ServiceIds(rows), dates)))
  }

  /** The nested service-by-date loops. The loop variable `row` is rebound to
      the row just built, which carries the same service and type. */
  method ExpandExceptions(ids: seq<Option<string>>, dates: seq<string>) returns (out: seq<CalendarDate>)
    ensures out == ExceptionRows(ids, dates)
  {
    out := [];
    for i := 0 to |ids|
      invariant out == ExceptionRows(ids[..i], dates)
    {
      var row := CalendarDate(ids[i], "", ServiceRemoved);
      ghost var before := out;
      for j := 0 to |dates|
        invariant row.serviceId == ids[i] && row.exceptionType == ServiceRemoved
        invariant out == before + DateRows(ids[i], dates[..j])
      {
        row := CalendarDate(row.serviceId, dates[j], row.exceptionType);
        assert DateRows(ids[i], dates[..j + 1]) == DateRows(ids[i], dates[..j]) + [row];
        out := out + [row];
      }
      assert dates[..|dates|] == dates;
      assert ids[..i + 1][..i] == ids[..i];
    }
    assert ids[..|ids|] == ids;
  }

  /** `get_calendar_dates`: the warnings about unrecognised labels and the
      exception rows (None when nothing is labelled or no holiday falls in
      the operating period). */
  method GetCalendarDates(gtfsInfo: seq<InfoRow>, table: HolidayTable)
    returns (warnings: set<string>, r: Result<Option<seq<CalendarDate>>>)
    ensures warnings == Unrecognized(LabelSet(gtfsInfo))
    ensures r == CalendarDatesOf(gtfsInfo, table)
  {
    var labelled := Labelled(gtfsInfo);
    var values := Unique(NonOperativeTexts(gtfsInfo));
    var nonOperatives := CollectLabels(values);
    var labels := set l | l in nonOperatives;
    warnings := set l | l in labels && !Recognized(l);
    if |labels| == 0 {
      return warnings, Ok(None);
    }
    var holidays := BankHolidayDates(labelled, table, DefaultRegion);
    if holidays.Err? {
      return warnings, Err(holidays.error);
    }
    if holidays.value.None? {
      return warnings, Ok(None);
    }
    var calendarInfo := ServiceIds(gtfsInfo);
    var calendarDates := ExpandExceptions(calendarInfo, holidays.value.value);
    r := Ok(Some(calendarDates));
  }

  // ---------------------------------------------------------------------------
  // Properties

  /** Every (service, date) pair once per service id and date, always type 2. */
  lemma {:induction false} ExceptionRowsMembers(ids: seq<Option<string>>, dates: seq<string>)
    ensures |ExceptionRows(ids, dates)| == |ids| * |dates|
    ensures forall x :: x in ExceptionRows(ids, dates) <==>
      x.serviceId in ids && x.date in dates && x.exceptionType == ServiceRemoved
    decreases |ids|
  {
    if |ids| > 0 {
      var init := ids[..|ids| - 1];
      var last := ids[|ids| - 1];
      ExceptionRowsMembers(init, dates);
      assert ids == init + [last];
      assert |ExceptionRows(ids, dates)| == |init| * |dates| + |dates|;
      assert (|init| + 1) * |dates| == |init| * |dates| + |dates|;
      forall x ensures x in DateRows(last, dates) <==>
        x.serviceId == last && x.date in dates && x.exceptionType == ServiceRemoved
      {
        if x.serviceId == last && x.date in dates && x.exceptionType == ServiceRemoved {
          var j :| 0 <= j < |dates| && dates[j] == x.date;
          assert DateRows(last, dates)[j] == x;
        }
      }
    }
  }

  /** The service ids are exactly those of the labelled rows, each once. */
  lemma ServiceIdsProperties(rows: seq<InfoRow>)
    ensures var ids := ServiceIds(rows);
      && (forall id :: id in ids <==> exists x :: x in rows && x.nonOperativeDays.Some? && x.serviceId == id)
      && (forall i, j :: 0 <= i < j < |ids| ==> ids[i] != ids[j])
  {
    var labelled := Labelled(rows);
    var ids := ServiceIds(rows);
    DistinctKeys(labelled, ServiceIdOf);
    assert ids == KeysOf(DistinctBy(labelled, ServiceIdOf), ServiceIdOf);
    forall id ensures HasKey(labelled, ServiceIdOf, id) <==>
      exists x :: x in rows && x.nonOperativeDays.Some? && x.serviceId == id
    {
      if HasKey(labelled, ServiceIdOf, id) {
        var k :| 0 <= k < |labelled| && ServiceIdOf(labelled[k]) == id;
        assert labelled[k] in labelled;
      }
      if exists x :: x in rows && x.nonOperativeDays.Some? && x.serviceId == id {
        var x :| x in rows && x.nonOperativeDays.Some? && x.serviceId == id;
        assert x in labelled;
        var k :| 0 <= k < |labelled| && labelled[k] == x;
        assert ServiceIdOf(labelled[k]) == id;
      }
    }
  }

  /** When exceptions are produced, they are exactly the pairs of a labelled
      row's service id and a holiday date, all of type 2; all holiday dates
      are used whatever the labels say. */
  lemma CalendarDatesRows(rows: seq<InfoRow>, table: HolidayTable, dates: seq<string>)
    requires LabelSet(rows) != {}
    requires BankHolidayDates(Labelled(rows), table, DefaultRegion) == Ok(Some(dates))
    ensures CalendarDatesOf(rows, table).Ok? && CalendarDatesOf(rows, table).value.Some?
    ensures forall x :: x in CalendarDatesOf(rows, table).value.value <==>
      && (exists y :: y in rows && y.nonOperativeDays.Some? && y.serviceId == x.serviceId)
      && x.date in dates
      && x.exceptionType == 2
  {
    ServiceIdsProperties(rows);
    ExceptionRowsMembers(ServiceIds(rows), dates);
  }

  /** Nothing labelled, no exceptions. */
  lemma NoLabelsNoExceptions(rows: seq<InfoRow>, table: HolidayTable)
    requires forall i :: 0 <= i < |rows| ==> rows[i].nonOperativeDays.None? || rows[i].nonOperativeDays == Some("")
    ensures CalendarDatesOf(rows, table) == Ok(None)
  {
    var texts := NonOperativeTexts(rows);
    var values := Unique(texts);
    UniqueProperties(texts);
    EmptyValuesNoLabels(values);
  }

  lemma {:induction false} EmptyValuesNoLabels(values: seq<string>)
    requires forall v :: v in values ==> v == ""
    ensures LabelList(values) == []
    decreases |values|
  {
    if |values| > 0 {
      var init := values[..|values| - 1];
      assert forall v :: v in init ==> v in values;
      EmptyValuesNoLabels(init);
      assert values[|values| - 1] in values;
    }
  }

  /** The labels of one profile's text are its element names: joining the
      names with `|` and splitting them again here gives them back. */
  lemma ProfileLabels(names: seq<string>)
    requires |names| >= 1
    requires forall k :: 0 <= k < |names| ==> names[k] != "" && '|' !in names[k]
    ensures (set p | p in Pieces(Join(names, "|"))) == (set n | n in names)
  {
    if |names| == 1 {
      assert Join(names, "|") == names[0];
      assert Pieces(names[0]) == [names[0]];
    } else {
      var text := Join(names, "|");
      assert text == names[0] + "|" + Join(names[1..], "|");
      assert text[|names[0]|] == '|';
      SplitJoinChar(names, '|');
      assert Pieces(text) == names;
    }
  }

  /** A value `A|` contributes an empty holiday, so the empty holiday is warned
      about; an empty value on its own contributes nothing. */
  lemma EmptyPieceWarned()
    ensures Pieces("") == []
    ensures "" in Pieces("GoodFriday|")
    ensures "" in Unrecognized({""})
  {
    var v := "GoodFriday|";
    assert v[10] == '|';
    assert "GoodFriday" + "|" + "" == v;
    SplitAtFirstChar("GoodFriday", "|", "");
    assert Split("", "|") == [""];
  }
}
