/** The weekday resolver: the operating-profile text of a journey or service,
    its reading as a Monday..Sunday 0/1 row, and the calendar table. */
module Calendar {
  import opened Results
  import opened Text
  import opened Tables
  import opened Records

  // ---------------------------------------------------------------------------
  // Operating-profile text

  /** The text of an operating profile's element names: the name itself when
      there is one, the names joined with `|` otherwise, None when the profile
      is missing. */
  method ProfileText(profile: Option<seq<string>>) returns (r: Option<string>)
    ensures r.Some? <==> profile.Some?
    ensures r.Some? ==> r.value == Join(profile.value, "|")
  {
    match profile {
      case None =>
        r := None;
      case Some(elems) =>
        var weekdays: seq<string> := [];
        for k := 0 to |elems|
          invariant weekdays == elems[..k]
        {
          weekdays := weekdays + [elems[k]];
        }
        assert weekdays == elems;
        if |weekdays| == 1 {
          r := Some(weekdays[0]);
        } else {
          r := Some(Join(weekdays, "|"));
        }
    }
  }

  /** The weekdays of a vehicle journey, from its own operating profile. */
  method WeekdayInfo(journey: VehicleJourney) returns (r: Option<string>)
    ensures r.Some? <==> journey.daysOfWeek.Some?
    ensures r.Some? ==> r.value == Join(journey.daysOfWeek.value, "|")
  {
    r := ProfileText(journey.daysOfWeek);
  }

  /** The weekdays of the document's service. Reaching the profile through
      `Services.Service` needs exactly one Service element. */
  method ServiceOperativeDaysInfo(doc: Document) returns (r: Option<string>)
    ensures r.Some? <==> |doc.services| == 1 && doc.services[0].daysOfWeek.Some?
    ensures r.Some? ==> r.value == Join(doc.services[0].daysOfWeek.value, "|")
  {
    if |doc.services| != 1 {
      r := None;
    } else {
      r := ProfileText(doc.services[0].daysOfWeek);
    }
  }

  // ---------------------------------------------------------------------------
  // Day ranges

  /** `weekday_to_num`: a lower-case day name to Monday = 0 .. Sunday = 6. */
  function DayNumber(name: string): (r: Option<int>)
    ensures r.Some? ==> 0 <= r.value <= 6
  {
    if name == "monday" then Some(0)
    else if name == "tuesday" then Some(1)
    else if name == "wednesday" then Some(2)
    else if name == "thursday" then Some(3)
    else if name == "friday" then Some(4)
    else if name == "saturday" then Some(5)
    else if name == "sunday" then Some(6)
    else None
  }

  /** The TransXChange element name of a single day. */
  function DayElementName(d: int): string
    requires 0 <= d <= 6
  {
    ["Monday", "Tuesday", "Wednesday", "Thursday", "Friday", "Saturday", "Sunday"][d]
  }

  /** The day numbers from a to b; none when b comes before a. */
  function Span(a: int, b: int): (r: set<int>)
    ensures forall x :: x in r <==> a <= x <= b
    decreases b - a
  {
    if a > b then {} else {a} + Span(a + 1, b)
  }

  /** The days a day-information text names, as a set of day numbers:
      anything mentioning `weekend` (in any case, around any spaces) is
      Saturday and Sunday; `XToY` is the days from X to Y, none when Y comes
      before X; `A|B|...` is the days named; otherwise the text is one day
      name. Names are matched case-insensitively; an unknown one is a
      KeyError. */
  function ActiveDays(dayinfo: string): (r: Result<set<int>>)
    ensures r.Ok? ==> forall x :: x in r.value ==> 0 <= x <= 6
    ensures r.Err? ==> r.error == KeyError
  {
    if Contains(Lower(Strip(dayinfo)), "weekend") then Ok({5, 6})
    else if Contains(dayinfo, "To") then
      var parts := Split(dayinfo, "To");
      var first, last := DayNumber(Lower(parts[0])), DayNumber(Lower(parts[1]));
      if first.Some? && last.Some? then Ok(Span(first.value, last.value))
      else Err(KeyError)
    else if Contains(dayinfo, "|") then
      var days := Split(dayinfo, "|");
      if forall j :: 0 <= j < |days| ==> DayNumber(Lower(days[j])).Some? then
        Ok(set x | 0 <= x <= 6 && exists j :: 0 <= j < |days| && DayNumber(Lower(days[j])) == Some(x))
      else Err(KeyError)
    else
      match DayNumber(Lower(dayinfo))
      case None => Err(KeyError)
      case Some(n) => Ok({n})
  }

  /** The calendar row of a set of days: seven 0/1 flags, Monday first. */
  function DayMask(days: set<int>): (m: seq<int>)
    ensures |m| == 7
    ensures forall k :: 0 <= k < 7 ==> (m[k] == 0 || m[k] == 1) && (m[k] == 1 <==> k in days)
  {
    seq(7, k => if k in days then 1 else 0)
  }

  /** The loop over `range(start, end + 1)`. */
  method CollectRange(first: int, last: int) returns (active: seq<int>)
    ensures forall x :: x in active <==> first <= x <= last
  {
    active := [];
    var idx := first;
    while idx < last + 1
      invariant first <= idx
      invariant idx <= last + 1 || idx == first
      invariant forall x :: x in active <==> first <= x < idx
    {
      active := active + [idx];
      idx := idx + 1;
    }
  }

  /** The loop over the `|`-separated day names. */
  method CollectDays(days: seq<string>) returns (r: Result<seq<int>>)
    ensures r.Ok? <==> forall j :: 0 <= j < |days| ==> DayNumber(Lower(days[j])).Some?
    ensures r.Ok? ==> forall x :: x in r.value <==> exists j :: 0 <= j < |days| && DayNumber(Lower(days[j])) == Some(x)
    ensures r.Err? ==> r.error == KeyError
  {
    var active: seq<int> := [];
    var i := 0;
    while i < |days|
      invariant 0 <= i <= |days|
      invariant forall j :: 0 <= j < i ==> DayNumber(Lower(days[j])).Some?
      invariant forall x :: x in active <==> exists j :: 0 <= j < i && DayNumber(Lower(days[j])) == Some(x)
    {
      var n := DayNumber(Lower(days[i]));
      if n.None? {
        return Err(KeyError);
      }
      active := active + [n.value];
      i := i + 1;
    }
    r := Ok(active);
  }

  /** The loop that fills the seven day columns. */
  method FlagRow(active: seq<int>) returns (row: seq<int>)
    ensures row == DayMask(set x | x in active)
  {
    row := [];
    for daynum := 0 to 7
      invariant |row| == daynum
      invariant forall k :: 0 <= k < daynum ==> row[k] == if k in active then 1 else 0
    {
      row := row + [if daynum in active then 1 else 0];
    }
  }

  /** `parse_day_range`: the day numbers are collected in a list, then the
      seven flags are filled in. */
  method ParseDayRange(dayinfo: string) returns (r: Result<seq<int>>)
    ensures r.Ok? <==> ActiveDays(dayinfo).Ok?
    ensures r.Ok? ==> r.value == DayMask(ActiveDays(dayinfo).value)
    ensures r.Err? ==> r.error == KeyError
  {
    var active: seq<int> := [];
    if Contains(Lower(Strip(dayinfo)), "weekend") {
      active := active + [5];
      active := active + [6];
      assert (set x | x in active) == {5, 6};
    } else if Contains(dayinfo, "To") {
      var dayRange := Split(dayinfo, "To");
      var first := DayNumber(Lower(dayRange[0]));
      var last := DayNumber(Lower(dayRange[1]));
      if first.None? || last.None? {
        return Err(KeyError);
      }
      active := CollectRange(first.value, last.value);
      assert (set x | x in active) == Span(first.value, last.value);
    } else if Contains(dayinfo, "|") {
      var days := Split(dayinfo, "|");
      var collected := CollectDays(days);
      if collected.Err? {
        return Err(KeyError);
      }
      active := collected.value;
      var named := set x | 0 <= x <= 6 && exists j :: 0 <= j < |days| && DayNumber(Lower(days[j])) == Some(x);
      forall x ensures x in active <==> x in named {
        if x in active {
          var j :| 0 <= j < |days| && DayNumber(Lower(days[j])) == Some(x);
          assert 0 <= x <= 6;
        }
      }
      assert (set x | x in active) == named;
    } else {
      var n := DayNumber(Lower(dayinfo));
      if n.None? {
        return Err(KeyError);
      }
      active := active + [n.value];
      assert (set x | x in active) == {n.value};
    }
    assert (set x | x in active) == ActiveDays(dayinfo).value;
    var row := FlagRow(active);
    r := Ok(row);
  }

  // ---------------------------------------------------------------------------
  // The calendar table

  /** A row of calendar.txt: service, Monday..Sunday flags, date range. */
  datatype CalendarRow = CalendarRow(serviceId: Option<string>, days: seq<int>, startDate: string, endDate: string)

  /** The columns a calendar row is deduplicated on. */
  function CalendarKey(row: InfoRow): (Option<string>, Option<string>, string, string) {
    (row.serviceId, row.trip.weekdays, row.trip.startDate, row.trip.endDate)
  }

  /** The calendar row of one gtfs_info row; missing weekdays fail like
      `None.strip()`. */
  function CalendarRowOf(row: InfoRow): Result<CalendarRow> {
    match row.trip.weekdays
    case None => Err(AttributeError)
    case Some(w) =>
      match ActiveDays(w)
      case Err(e) => Err(e)
      case Ok(days) => Ok(CalendarRow(row.serviceId, DayMask(days), row.trip.startDate, row.trip.endDate))
  }

  /** The calendar rows of a list of rows, failing at the first bad one. */
  function CalendarRows(rows: seq<InfoRow>): Result<seq<CalendarRow>>
    decreases |rows|
  {
    if |rows| == 0 then Ok([])
    else
      match CalendarRowOf(rows[0])
      case Err(e) => Err(e)
      case Ok(row) => Prepend([row], CalendarRows(rows[1..]))
  }

  /** The calendar of a gtfs_info frame; an empty one has no columns to
      select, a KeyError. */
  function CalendarOf(rows: seq<InfoRow>): Result<seq<CalendarRow>> {
    match CalendarRows(DistinctBy(rows, CalendarKey))
    case Err(e) => Err(e)
    case Ok(out) => if |out| == 0 then Err(KeyError) else Ok(out)
  }

  /** The loop over the deduplicated rows of `get_calendar`. */
  method CalendarLoop(calendar: seq<InfoRow>) returns (r: Result<seq<CalendarRow>>)
    ensures r == CalendarRows(calendar)
  {
    var out: seq<CalendarRow> := [];
    var k := 0;
    assert calendar[k..] == calendar;
    PrependNothing(CalendarRows(calendar));
    while k < |calendar|
      invariant 0 <= k <= |calendar|
      invariant CalendarRows(calendar) == Prepend(out, CalendarRows(calendar[k..]))
    {
      var row := calendar[k];
      CalendarRowsStep(calendar, k);
      if row.trip.weekdays.None? {
        return Err(AttributeError);
      }
      var dayrow := ParseDayRange(row.trip.weekdays.value);
      if dayrow.Err? {
        return Err(dayrow.error);
      }
      var calRow := CalendarRow(row.serviceId, dayrow.value, row.trip.startDate, row.trip.endDate);
      assert CalendarRowOf(row) == Ok(calRow);
      PrependTwice(out, [calRow], CalendarRows(calendar[k + 1..]));
      out := out + [calRow];
      k := k + 1;
    }
    assert calendar[k..] == [];
    assert out + [] == out;
    r := Ok(out);
  }

  lemma CalendarRowsStep(rows: seq<InfoRow>, k: int)
    requires 0 <= k < |rows|
    ensures CalendarRows(rows[k..]) ==
      match CalendarRowOf(rows[k])
      case Err(e) => Err(e)
      case Ok(row) => Prepend([row], CalendarRows(rows[k + 1..]))
  {
    assert rows[k..][0] == rows[k] && rows[k..][1..] == rows[k + 1..];
  }

  /** `get_calendar`. */
  method GetCalendar(gtfsInfo: seq<InfoRow>) returns (r: Result<seq<CalendarRow>>)
    ensures r == CalendarOf(gtfsInfo)
  {
    var calendar := DistinctBy(gtfsInfo, CalendarKey);
    var rows := CalendarLoop(calendar);
    if rows.Err? {
      return Err(rows.error);
    }
    if |rows.value| == 0 {
      return Err(KeyError);
    }
    r := rows;
  }

  // ---------------------------------------------------------------------------
  // Properties

  /** Row by row, the calendar rows are the rows' readings. */
  lemma {:induction false} CalendarRowsShape(rows: seq<InfoRow>)
    ensures CalendarRows(rows).Ok? <==> forall k :: 0 <= k < |rows| ==> CalendarRowOf(rows[k]).Ok?
    ensures CalendarRows(rows).Ok? ==>
      |CalendarRows(rows).value| == |rows| &&
      forall k :: 0 <= k < |rows| ==> CalendarRows(rows).value[k] == CalendarRowOf(rows[k]).value
    decreases |rows|
  {
    if |rows| > 0 {
      var tail := rows[1..];
      CalendarRowsShape(tail);
      assert forall k :: 1 <= k < |rows| ==> tail[k - 1] == rows[k];
      match CalendarRowOf(rows[0])
      case Err(e) =>
        assert CalendarRows(rows) == Err(e);
      case Ok(row) =>
        assert CalendarRows(rows) == Prepend([row], CalendarRows(tail));
        if CalendarRows(tail).Ok? {
          var out := CalendarRows(rows).value;
          assert out == [row] + CalendarRows(tail).value;
          forall k | 1 <= k < |rows| ensures out[k] == CalendarRowOf(rows[k]).value {
            assert out[k] == CalendarRows(tail).value[k - 1];
          }
        }
    }
  }

  /** What `get_calendar` promises, row by row: one row per row of the
      deduplicated frame, with the flags of its weekdays text. */
  lemma CalendarRowsOfDistinct(rows: seq<InfoRow>)
    requires CalendarOf(rows).Ok?
    ensures var out, d := CalendarOf(rows).value, DistinctBy(rows, CalendarKey);
      && |out| == |d| > 0
      && forall k :: 0 <= k < |d| ==>
            && d[k].trip.weekdays.Some?
            && ActiveDays(d[k].trip.weekdays.value).Ok?
            && out[k] == CalendarRow(d[k].serviceId, DayMask(ActiveDays(d[k].trip.weekdays.value).value),
                                     d[k].trip.startDate, d[k].trip.endDate)
  {
    var d := DistinctBy(rows, CalendarKey);
    CalendarRowsShape(d);
    forall k | 0 <= k < |d| ensures d[k].trip.weekdays.Some? && ActiveDays(d[k].trip.weekdays.value).Ok? {
      assert CalendarRowOf(d[k]).Ok?;
    }
  }

  /** The rows behind the calendar: each (service_id, weekdays, start_date,
      end_date) of the frame exactly once, in the order of first appearance. */
  lemma CalendarKeysOncePerRow(rows: seq<InfoRow>)
    ensures var d := DistinctBy(rows, CalendarKey);
      && (forall k1, k2 :: 0 <= k1 < k2 < |d| ==> CalendarKey(d[k1]) != CalendarKey(d[k2]))
      && (forall i :: 0 <= i < |rows| ==> HasKey(d, CalendarKey, CalendarKey(rows[i])))
      && (forall k :: 0 <= k < |d| ==>
            HasKey(rows, CalendarKey, CalendarKey(d[k])) && d[k] == rows[FirstIndex(rows, CalendarKey, CalendarKey(d[k]))])
  {
    DistinctByKeysDistinct(rows, CalendarKey);
    DistinctByProperties(rows, CalendarKey);
    var d := DistinctBy(rows, CalendarKey);
    forall i | 0 <= i < |rows| ensures HasKey(d, CalendarKey, CalendarKey(rows[i])) {
      assert HasKey(rows, CalendarKey, CalendarKey(rows[i]));
    }
  }

  /** A row without weekdays makes the calendar fail. */
  lemma CalendarNeedsWeekdays(rows: seq<InfoRow>, i: int)
    requires 0 <= i < |rows| && rows[i].trip.weekdays.None?
    ensures CalendarOf(rows).Err?
  {
    var d := DistinctBy(rows, CalendarKey);
    DistinctByProperties(rows, CalendarKey);
    assert HasKey(rows, CalendarKey, CalendarKey(rows[i]));
    var k :| 0 <= k < |d| && CalendarKey(d[k]) == CalendarKey(rows[i]);
    CalendarRowsShape(d);
  }

  /** A single day name, as in the test feeds. */
  lemma SingleDayExamples(sunday: string, saturday: string)
    requires sunday == "Sunday" && saturday == "Saturday"
    ensures ActiveDays(sunday) == Ok({6})
    ensures ActiveDays(saturday) == Ok({5})
  {
    SingleDay(6);
    SingleDay(5);
    assert DayElementName(6) == sunday && DayElementName(5) == saturday;
  }

  /** `MondayToFriday` is the five working days; `FridayToMonday` does not wrap
      round the week and is no day at all. */
  lemma RangeExamples(mondayToFriday: string, fridayToMonday: string)
    requires mondayToFriday == DayElementName(0) + "To" + DayElementName(4)
    requires fridayToMonday == DayElementName(4) + "To" + DayElementName(0)
    ensures ActiveDays(mondayToFriday) == Ok({0, 1, 2, 3, 4})
    ensures ActiveDays(fridayToMonday) == Ok({})
  {
    RangeOf(0, 4);
    RangeOf(4, 0);
    assert Span(4, 0) == {};
    assert Span(0, 4) == {0, 1, 2, 3, 4} by {
      forall x ensures x in Span(0, 4) <==> x in {0, 1, 2, 3, 4} {
      }
    }
  }

  /** Any text mentioning `weekend`, once stripped and lower-cased, is
      Saturday and Sunday, even when it names other days too. */
  lemma WeekendWins(dayinfo: string)
    requires Contains(Lower(Strip(dayinfo)), "weekend")
    ensures ActiveDays(dayinfo) == Ok({5, 6})
  {
  }

  /** `Weekend` and `Monday|Weekend` both mention the weekend. */
  lemma WeekendExamples(weekend: string, mixed: string)
    requires weekend == "Weekend" && mixed == "Monday|Weekend"
    ensures ActiveDays(weekend) == Ok({5, 6})
    ensures ActiveDays(mixed) == Ok({5, 6})
  {
    assert Strip(weekend) == weekend by { StripNoSpace(weekend); }
    assert Lower(weekend) == "weekend";
    assert OccursAt("weekend", "weekend", 0);
    assert Strip(mixed) == mixed by { StripNoSpace(mixed); }
    assert Lower(mixed) == "monday|weekend";
    assert "monday|weekend"[7..14] == "weekend";
    assert OccursAt("monday|weekend", "weekend", 7);
  }

  // Helpers for the examples and the naming lemma below

  lemma DayNameLookup(d: int)
    requires 0 <= d <= 6
    ensures DayNumber(Lower(DayElementName(d))) == Some(d)
  {
    var n := DayElementName(d);
    if d == 0 { assert Lower(n) == "monday"; }
    else if d == 1 { assert Lower(n) == "tuesday"; }
    else if d == 2 { assert Lower(n) == "wednesday"; }
    else if d == 3 { assert Lower(n) == "thursday"; }
    else if d == 4 { assert Lower(n) == "friday"; }
    else if d == 5 { assert Lower(n) == "saturday"; }
    else { assert Lower(n) == "sunday"; }
  }

  lemma DayNameChars(d: int)
    requires 0 <= d <= 6
    ensures 'k' !in DayElementName(d) && 'K' !in DayElementName(d)
    ensures '|' !in DayElementName(d)
    ensures NoPair(DayElementName(d), 'T', 'o')
    ensures |DayElementName(d)| > 0 && DayElementName(d)[|DayElementName(d)| - 1] == 'y'
  {
  }

  lemma DayNameFacts(d: int)
    requires 0 <= d <= 6
    ensures DayNumber(Lower(DayElementName(d))) == Some(d)
    ensures 'k' !in DayElementName(d) && 'K' !in DayElementName(d)
    ensures '|' !in DayElementName(d)
    ensures NoPair(DayElementName(d), 'T', 'o')
    ensures |DayElementName(d)| > 0 && DayElementName(d)[|DayElementName(d)| - 1] == 'y'
  {
    DayNameLookup(d);
    DayNameChars(d);
  }

  lemma NoWeekendIn(s: string)
    requires 'k' !in s && 'K' !in s
    ensures !Contains(Lower(Strip(s)), "weekend")
  {
    StripChars(s);
    var t := Lower(Strip(s));
    assert 'k' !in t;
    AbsentCharNotContained(t, "weekend", 3);
  }

  lemma SingleDay(d: int)
    requires 0 <= d <= 6
    ensures ActiveDays(DayElementName(d)) == Ok({d})
  {
    var n := DayElementName(d);
    DayNameFacts(d);
    NoWeekendIn(n);
    NoPairNotContained(n, "To");
    AbsentCharNotContained(n, "|", 0);
  }

  /** `XToY` for two day element names is the span from X to Y. */
  lemma RangeOf(a: int, b: int)
    requires 0 <= a <= 6 && 0 <= b <= 6
    ensures ActiveDays(DayElementName(a) + "To" + DayElementName(b)) == Ok(Span(a, b))
  {
    var x, y := DayElementName(a), DayElementName(b);
    DayNameFacts(a);
    DayNameFacts(b);
    var s := x + "To" + y;
    assert 'k' !in s && 'K' !in s;
    NoWeekendIn(s);
    assert x[|x| - 1] == 'y';
    SplitAtFirstPair(x, "To", y);
    NoPairNotContained(y, "To");
    assert s[|x|..|x| + 2] == "To";
    assert OccursAt(s, "To", |x|);
  }

  /** Reading back what the profile text of a list of day names gives: for
      any non-empty list of single day elements (`Monday` .. `Sunday`), the
      joined text names exactly the listed days. */
  lemma {:induction false} JoinedDayNames(names: seq<string>)
    requires |names| >= 1
    requires forall k :: 0 <= k < |names| ==> exists d :: 0 <= d <= 6 && names[k] == DayElementName(d)
    ensures ActiveDays(Join(names, "|")) == Ok(set x | 0 <= x <= 6 && DayElementName(x) in names)
  {
    var s := Join(names, "|");
    forall k | 0 <= k < |names|
      ensures 'k' !in names[k] && 'K' !in names[k] && '|' !in names[k] && NoPair(names[k], 'T', 'o')
      ensures DayNumber(Lower(names[k])).Some? && DayElementName(DayNumber(Lower(names[k])).value) == names[k]
    {
      var d :| 0 <= d <= 6 && names[k] == DayElementName(d);
      DayNameFacts(d);
    }
    JoinAbsentChar(names, '|', 'k');
    JoinAbsentChar(names, '|', 'K');
    NoWeekendIn(s);
    JoinNoPair(names, '|', 'T', 'o');
    NoPairNotContained(s, "To");
    var want := set x | 0 <= x <= 6 && DayElementName(x) in names;
    if |names| == 1 {
      assert s == names[0];
      AbsentCharNotContained(s, "|", 0);
      var d :| 0 <= d <= 6 && names[0] == DayElementName(d);
      DayNameFacts(d);
      assert want == {d} by {
        forall x | 0 <= x <= 6 && DayElementName(x) in names ensures x == d {
          DayNameFacts(x);
        }
      }
    } else {
      SplitJoinChar(names, '|');
      assert s == names[0] + "|" + Join(names[1..], "|");
      assert s[|names[0]|..|names[0]| + 1] == "|";
      assert OccursAt(s, "|", |names[0]|);
      var got := set x | 0 <= x <= 6 && exists j :: 0 <= j < |names| && DayNumber(Lower(names[j])) == Some(x);
      forall x | 0 <= x <= 6 ensures x in got <==> x in want {
        if x in want {
          var j :| 0 <= j < |names| && names[j] == DayElementName(x);
          DayNameFacts(x);
        }
      }
      assert got == want;
    }
  }
}
