/** The UK bank holidays that fall within the operating period of a feed.
    The holiday table (the events of each region, by date) is an input. */
module BankHolidays {
  import opened Results
  import opened Text
  import opened Dates
  import opened Records

  /** A holiday date: always a real calendar date. */
  type Day = d: Date | ValidDate(d) witness Date(2000, 1, 1)

  /** The dated events of each region, in table order. */
  type HolidayTable = map<string, seq<Day>>

  /** The region used when none is named. */
  const DefaultRegion: string := "england-and-wales"

  /** The regions the holiday table is published for. */
  predicate KnownRegion(region: string) {
    region == "england-and-wales" || region == "scotland" || region == "northern-ireland"
  }

  // ---------------------------------------------------------------------------
  // Minimum and maximum of a text column (string order)

  function MinText(s: seq<string>): (r: string)
    requires |s| > 0
    ensures r in s
    ensures forall i :: 0 <= i < |s| ==> !Less(s[i], r)
    decreases |s|
  {
    if |s| == 1 then
      LessIrreflexive(s[0]);
      s[0]
    else
      var m := MinText(s[..|s| - 1]);
      assert forall i :: 0 <= i < |s| - 1 ==> s[i] == s[..|s| - 1][i];
      if Less(s[|s| - 1], m) then
        forall i | 0 <= i < |s| - 1 ensures !Less(s[i], s[|s| - 1]) {
          if Less(s[i], s[|s| - 1]) { LessTransitive(s[i], s[|s| - 1], m); }
        }
        LessIrreflexive(s[|s| - 1]);
        s[|s| - 1]
      else
        m
  }

  function MaxText(s: seq<string>): (r: string)
    requires |s| > 0
    ensures r in s
    ensures forall i :: 0 <= i < |s| ==> !Less(r, s[i])
    decreases |s|
  {
    if |s| == 1 then
      LessIrreflexive(s[0]);
      s[0]
    else
      var m := MaxText(s[..|s| - 1]);
      assert forall i :: 0 <= i < |s| - 1 ==> s[i] == s[..|s| - 1][i];
      if Less(m, s[|s| - 1]) then
        forall i | 0 <= i < |s| - 1 ensures !Less(s[|s| - 1], s[i]) {
          if Less(s[|s| - 1], s[i]) { LessTransitive(m, s[|s| - 1], s[i]); }
        }
        LessIrreflexive(s[|s| - 1]);
        s[|s| - 1]
      else
        m
  }

  function StartDates(rows: seq<InfoRow>): (r: seq<string>)
    ensures |r| == |rows| && forall i :: 0 <= i < |rows| ==> r[i] == rows[i].trip.startDate
  {
    seq(|rows|, i requires 0 <= i < |rows| => rows[i].trip.startDate)
  }

  function EndDates(rows: seq<InfoRow>): (r: seq<string>)
    ensures |r| == |rows| && forall i :: 0 <= i < |rows| ==> r[i] == rows[i].trip.endDate
  {
    seq(|rows|, i requires 0 <= i < |rows| => rows[i].trip.endDate)
  }

  // ---------------------------------------------------------------------------
  // The window

  predicate InWindow(d: Date, lo: Date, hi: Date) {
    NotAfter(lo, d) && NotAfter(d, hi)
  }

  /** The events dated from lo to hi, both included, in table order. */
  function Window(events: seq<Day>, lo: Date, hi: Date): (r: seq<Day>)
    ensures |r| <= |events|
    ensures forall d :: d in r <==> d in events && InWindow(d, lo, hi)
    decreases |events|
  {
    if |events| == 0 then []
    else
      var init := events[..|events| - 1];
      var last := events[|events| - 1];
      assert events == init + [last];
      Window(init, lo, hi) + (if InWindow(last, lo, hi) then [last] else [])
  }

  /** The dates as YYYYMMDD text. */
  function CompactTexts(ds: seq<Day>): (r: seq<string>)
    ensures |r| == |ds|
    ensures forall i :: 0 <= i < |ds| ==> r[i] == CompactText(ds[i])
  {
    seq(|ds|, i requires 0 <= i < |ds| => CompactText(ds[i]))
  }

  /** `get_bank_holiday_dates`: the region's holidays between the earliest
      start date and the latest end date of the rows, as YYYYMMDD text, or
      None when there are none. A region outside the three published ones
      fails the assertion; one missing from the table is a KeyError; the
      minimum of an empty column is not text and fails in strptime. */
  function BankHolidayDates(rows: seq<InfoRow>, table: HolidayTable, region: string): (r: Result<Option<seq<string>>>)
    ensures !KnownRegion(region) ==> r == Err(AssertionError)
    ensures KnownRegion(region) && region !in table ==> r == Err(KeyError)
    ensures KnownRegion(region) && region in table && |rows| == 0 ==> r == Err(TypeError)
    ensures r.Ok? && r.value.Some? ==> |r.value.value| > 0
    ensures r.Ok? && r.value.Some? ==>
      forall i :: 0 <= i < |r.value.value| ==> |r.value.value[i]| == 8 && AllDigits(r.value.value[i])
  {
    if !KnownRegion(region) then Err(AssertionError)
    else if region !in table then Err(KeyError)
    else if |rows| == 0 then Err(TypeError)
    else
      match ParseDate(MinText(StartDates(rows)), "")
      case Err(e) => Err(e)
      case Ok(lo) =>
        match ParseDate(MaxText(EndDates(rows)), "")
        case Err(e) => Err(e)
        case Ok(hi) =>
          var selected := Window(table[region], lo, hi);
          if |selected| == 0 then Ok(None)
          else
            var texts := CompactTexts(selected);
            assert forall i :: 0 <= i < |texts| ==> |texts[i]| == 8 && AllDigits(texts[i]) by {
              forall i | 0 <= i < |texts| ensures |texts[i]| == 8 && AllDigits(texts[i]) {
                CompactTextValue(selected[i]);
              }
            }
            Ok(Some(texts))
  }

  // ---------------------------------------------------------------------------
  // Properties

  /** Given the window's ends, the result is the text of the region's events
      inside it, and None when there are none. */
  lemma BankHolidayDatesWindow(rows: seq<InfoRow>, table: HolidayTable, region: string, lo: Date, hi: Date)
    requires KnownRegion(region) && region in table && |rows| > 0
    requires ParseDate(MinText(StartDates(rows)), "") == Ok(lo)
    requires ParseDate(MaxText(EndDates(rows)), "") == Ok(hi)
    ensures var selected := Window(table[region], lo, hi);
      BankHolidayDates(rows, table, region) ==
        if |selected| == 0 then Ok(None) else Ok(Some(CompactTexts(selected)))
  {
  }

  /** The window is empty exactly when no event of the region falls in it. */
  lemma WindowEmpty(events: seq<Day>, lo: Date, hi: Date)
    ensures |Window(events, lo, hi)| == 0 <==> forall d :: d in events ==> !InWindow(d, lo, hi)
  {
    var w := Window(events, lo, hi);
    if |w| > 0 {
      assert w[0] in w;
    }
    if |w| == 0 {
      assert forall d :: d !in w;
    }
  }

  /** The selected texts are exactly the texts of the events in the window. */
  lemma WindowTexts(events: seq<Day>, lo: Date, hi: Date)
    ensures forall s :: s in CompactTexts(Window(events, lo, hi)) <==>
      exists d :: d in events && InWindow(d, lo, hi) && s == CompactText(d)
  {
    var w := Window(events, lo, hi);
    var texts := CompactTexts(w);
    forall s ensures s in texts <==> exists d :: d in events && InWindow(d, lo, hi) && s == CompactText(d) {
      if s in texts {
        var i :| 0 <= i < |texts| && texts[i] == s;
        assert w[i] in w;
      }
      if exists d :: d in events && InWindow(d, lo, hi) && s == CompactText(d) {
        var d :| d in events && InWindow(d, lo, hi) && s == CompactText(d);
        assert d in w;
        var i :| 0 <= i < |w| && w[i] == d;
        assert texts[i] == s;
      }
    }
  }

  /** On the converter's own YYYYMMDD dates, the string minimum is the
      earliest date: the window starts at the earliest start date. */
  lemma EarliestStart(rows: seq<InfoRow>, starts: seq<Date>)
    requires |rows| > 0 && |starts| == |rows|
    requires forall i :: 0 <= i < |rows| ==> ValidDate(starts[i]) && rows[i].trip.startDate == CompactText(starts[i])
    ensures exists k ::
      && 0 <= k < |starts|
      && (ParseDate(MinText(StartDates(rows)), "") == Ok(starts[k]))
      && (forall i :: 0 <= i < |starts| ==> NotAfter(starts[k], starts[i]))
  {
    var texts := StartDates(rows);
    var m := MinText(texts);
    var k :| 0 <= k < |texts| && texts[k] == m;
    ParseDateText(starts[k], "");
    forall i | 0 <= i < |starts| ensures NotAfter(starts[k], starts[i]) {
      CompactOrder(starts[i], starts[k]);
      DayKeyOrder(starts[k], starts[i]);
    }
  }

  /** Symmetrically, the window ends at the latest end date. */
  lemma LatestEnd(rows: seq<InfoRow>, ends: seq<Date>)
    requires |rows| > 0 && |ends| == |rows|
    requires forall i :: 0 <= i < |rows| ==> ValidDate(ends[i]) && rows[i].trip.endDate == CompactText(ends[i])
    ensures exists k ::
      && 0 <= k < |ends|
      && (ParseDate(MaxText(EndDates(rows)), "") == Ok(ends[k]))
      && (forall i :: 0 <= i < |ends| ==> NotAfter(ends[i], ends[k]))
  {
    var texts := EndDates(rows);
    var m := MaxText(texts);
    var k :| 0 <= k < |texts| && texts[k] == m;
    ParseDateText(ends[k], "");
    forall i | 0 <= i < |ends| ensures NotAfter(ends[i], ends[k]) {
      CompactOrder(ends[k], ends[i]);
      DayKeyOrder(ends[i], ends[k]);
    }
  }

  /** A later date has a larger day key. */
  lemma DayKeyOrder(a: Date, b: Date)
    requires ValidDate(a) && ValidDate(b)
    ensures NotAfter(a, b) <==> DayKey(a) <= DayKey(b)
  {
  }

  predicate Chronological(ds: seq<Day>) {
    forall i, j :: 0 <= i < j < |ds| ==> DayKey(ds[i]) < DayKey(ds[j])
  }

  /** A chronological table gives a chronological window. */
  lemma {:induction false} WindowChronological(events: seq<Day>, lo: Date, hi: Date)
    requires Chronological(events)
    ensures Chronological(Window(events, lo, hi))
    decreases |events|
  {
    if |events| > 0 {
      var init := events[..|events| - 1];
      var last := events[|events| - 1];
      WindowChronological(init, lo, hi);
      var w := Window(init, lo, hi);
      forall d | d in w ensures DayKey(d) < DayKey(last) {
        var i :| 0 <= i < |init| && init[i] == d;
        assert events[i] == d;
      }
    }
  }

  /** ... and its YYYYMMDD texts are in ascending string order. */
  lemma HolidayTextsAscending(events: seq<Day>, lo: Date, hi: Date)
    requires Chronological(events)
    ensures var t := CompactTexts(Window(events, lo, hi));
      forall i, j :: 0 <= i < j < |t| ==> Less(t[i], t[j])
  {
    var w := Window(events, lo, hi);
    WindowChronological(events, lo, hi);
    forall i, j | 0 <= i < j < |w| ensures Less(CompactText(w[i]), CompactText(w[j])) {
      CompactOrder(w[i], w[j]);
    }
  }
}
