# transx2gtfs schedule derivation, modelled in Dafny

This project models the schedule-derivation core of transx2gtfs, which turns a
TransXChange document (services, journey patterns, pattern sections of timing
links, and vehicle journeys) into the tables of a GTFS feed. The model covers
the following parts:

- **Timing expander.** Run-time tokens such as `PT1H2M` are read as seconds,
  and each journey's timing links are walked with a clock cursor. Each stop
  gets a `stop_sequence`, a timepoint flag, a trip id and an `HH:MM:SS` time.
  After midnight the hour goes past 23. The journey-pattern table of the
  services is also built here.
- **Weekday resolver.** Operating-profile texts are read, day ranges are
  parsed into Monday-to-Sunday flag rows, and the calendar table is built.
- **Exception resolver.** Bank-holiday labels are collected. Unknown labels
  are warned about. Rows of type 2 are emitted for every labelled service
  and every holiday in the feed's date window.
- **Service ids and output tables.** Service ids are assigned in place,
  grouped by weekday string. The model also builds the stop_times table
  (trips with a single row are dropped), the trips table, the routes table
  (mode lookup, short name, agency lookup) and the agency table (operator
  URL lookup).
- **Static work partition.** Two copies of `create_workers` are modelled.

## How the model is built

- **Exceptions.** A Python exception is an `Err` of `Results.Result`. It
  carries the kind of exception only, for example `KeyError`, `ValueError`
  or `UnboundLocalError`.
- **Loops.** A loop over a list that may raise is `Results.Fold` of a step
  function. The imperative code is also written as methods with `while` and
  `for` loops. Each method is proved equal to the function that specifies it.
- **The parsed document.** It is a tree of plain records, in module
  `Records`.
- **Times.** A datetime is a whole number of seconds since midnight of the
  reference date. That date is the day the conversion runs, which the code
  reads from the clock and the model leaves out.
- **Pandas operations.**
  - `drop_duplicates` is `Tables.DistinctBy`, which keeps the first
    occurrence of each key.
  - `groupby` visits its keys in ascending order.
  - `unique()` keeps the first occurrence of each value.
- **Service ids.** `generate_service_id` changes the frame it is given, so
  it is modelled as a method over an `array` of rows.
- **As-written versus intended.** Where the code departs from what its
  comments and names promise, the modelled conversion follows the code as written.
  A corrected member stands beside it, with the intended property proved
  (see "## Findings").

## Model

| member | source | states |
|---|---|---|
| TransXChange.UnitPart | transx2gtfs/transxchange.py:338-348 | an absent unit letter leaves the text and adds nothing; a non-numeric part is a ValueError |
| TransXChange.WeightedSeconds | transx2gtfs/transxchange.py:335-349 | a token fails with IndexError exactly when it lacks `PT`; any other failure is a ValueError |
| TransXChange.RuntimeSeconds | transx2gtfs/transxchange.py:328-349 | `parse_runtime_duration` as written: fails with IndexError exactly when `PT` is missing |
| TransXChange.ParseRuntimeDuration | transx2gtfs/transxchange.py:328-349 | the step-by-step parse, with `time` and `runtime` reassigned, equals RuntimeSeconds |
| TransXChange.UnitPartOf | transx2gtfs/transxchange.py:338-348 | a present part of a well-formed token is read and removed; an absent one changes nothing |
| TransXChange.TokenSeconds | transx2gtfs/transxchange.py:336-349 | every well-formed token reads as 3600·H + 60·M + 60·S |
| TransXChange.HourAndMinutesExample | transx2gtfs/transxchange.py:336-345 | `PT1H2M` is 3720 seconds |
| TransXChange.MinutesExample | transx2gtfs/transxchange.py:342-345 | `PT45M` is 2700 seconds |
| TransXChange.MissingPrefixExample | transx2gtfs/transxchange.py:336 | a token without `PT` is an IndexError |
| TransXChange.RuntimeWholeMinutes | transx2gtfs/transxchange.py:338-349 | every run time that parses is a whole number of minutes |
| TransXChange.ThirtySecondsAsWritten | transx2gtfs/transxchange.py:346-349 | `PT30S` reads as 1800 seconds |
| TransXChange.HourOf | transx2gtfs/transxchange.py:18-19 | `dt.hour` lies in 0..23 |
| TransXChange.ClockFields | transx2gtfs/transxchange.py:25-28 | the hour, minute and second fields recompose the time of day |
| TransXChange.RoundHalfEven | transx2gtfs/transxchange.py:47-48 | the division of a timedelta by an integer rounds to the nearest quotient |
| TransXChange.SurplusHours | transx2gtfs/transxchange.py:46-48 | the rounded timedelta divisions give exactly the whole hours past 23:59:59, plus one |
| TransXChange.MidnightFormattedTimes | transx2gtfs/transxchange.py:37-54 | hours at or after the start hour are unchanged; an earlier arrival hour makes both hours 24 plus the whole hours their stamps lie past 23:59:59 |
| TransXChange.DisplayHour | transx2gtfs/transxchange.py:210-216 | the displayed hour of a stop is what `get_midnight_formatted_times` returns |
| TransXChange.NextDayHour | transx2gtfs/transxchange.py:43-52 | on the next day the hour shows as 24 + clock hour, one more in the last second of an hour |
| TransXChange.SameDayHour | transx2gtfs/transxchange.py:43-54 | a stop at or after the start hour keeps its clock hour |
| TransXChange.PaddedExamples | transx2gtfs/transxchange.py:219-222 | hours are zero-padded to two digits and not cut: `07`, `24` |
| TransXChange.MidnightExample | transx2gtfs/transxchange.py:40-41 | a 23:30 journey reaching 00:25 shows `24:25:00` for arrival and departure |
| TransXChange.ClosingStopTimes | transx2gtfs/transxchange.py:9-34 | the closing stop is the link's To stop at cursor + duration, with arrival equal to departure and the given stop number |
| TransXChange.PatternRowOf | transx2gtfs/transxchange.py:391-441 | direction: inbound 0 and outbound 1, else an error; headsign is Origin when inbound and Destination otherwise; id, section and route come from the pattern |
| TransXChange.PatternInfoOf | transx2gtfs/transxchange.py:352-442 | a document without services is an AttributeError |
| TransXChange.ServiceJourneyPatternInfo | transx2gtfs/transxchange.py:352-442 | the row-appending loop equals PatternInfoOf |
| TransXChange.PatternStepRows | transx2gtfs/transxchange.py:391-441 | the pattern loop keeps the earlier rows and adds one row per journey pattern, each from the coded service |
| TransXChange.ServiceStepRows | transx2gtfs/transxchange.py:358-441 | the service loop only appends rows, each taken from one of the services |
| TransXChange.PatternInfoRows | transx2gtfs/transxchange.py:372-441 | every row of the table comes from a service with a service code and one of its patterns |
| TransXChange.SectionRefsOf | transx2gtfs/transxchange.py:140-143 | the references are exactly the section refs of the rows with the journey's pattern id |
| TransXChange.ParseDeparture | transx2gtfs/transxchange.py:156-158 | the departure is split on `:` into three integers, and every failure is a ValueError |
| TransXChange.DepartureRoundTrip | transx2gtfs/transxchange.py:156-158 | a zero-padded `HH:MM:SS` reads back as its hour and minute |
| TransXChange.JourneyContextOf | transx2gtfs/transxchange.py:117-158 | weekdays and exceptions fall back to the service values when missing; an empty table is a KeyError, a missing pattern an IndexError; the departure, ids and section refs as read |
| TransXChange.JourneyContextFor | transx2gtfs/transxchange.py:117-158 | the journey-loop opening equals JourneyContextOf |
| TransXChange.TripIdParts | transx2gtfs/transxchange.py:171-173 | the trip id is section + `_` + weekdays + `_`, then HH and MM that read back as the hour and minute |
| TransXChange.NextLinkIgnoresDuration | transx2gtfs/transxchange.py:191-207 | one link step does not depend on the previous link's run time |
| TransXChange.NextLinkFirst | transx2gtfs/transxchange.py:194-199 | the first link row is at the departure hour:minute, with timepoint 1 and its run time remembered |
| TransXChange.NextLinkLater | transx2gtfs/transxchange.py:201-256 | each later link advances the cursor by its own run time, with timepoint 0, arrival equal to departure, and `stop_num` plus one |
| TransXChange.LinksStartClock | transx2gtfs/transxchange.py:194-202 | after at least one link the clock cursor is set |
| TransXChange.LinkRowStamp | transx2gtfs/transxchange.py:209-253 | a link row shows its stamp's clock text, its From stop, stop number, timepoint, trip id and exceptions |
| TransXChange.MoveCursor | transx2gtfs/transxchange.py:193-207 | the cursor update equals Advance |
| TransXChange.LinkIteration | transx2gtfs/transxchange.py:185-256 | the link loop body equals NextLink |
| TransXChange.StopRow | transx2gtfs/transxchange.py:209-253 | the formatting of the From stop's row equals LinkRow |
| TransXChange.ProcessLinks | transx2gtfs/transxchange.py:185-256 | the link loop equals the fold of NextLink |
| TransXChange.ProcessSections | transx2gtfs/transxchange.py:163-279 | the section loop equals the fold of SectionRows from `stop_num` 1 and no cursor |
| TransXChange.JourneyIteration | transx2gtfs/transxchange.py:113-282 | the journey loop body equals NextJourney |
| TransXChange.VehicleJourneysInfo | transx2gtfs/transxchange.py:96-287 | with no journeys the empty frame has no columns to group, which is a KeyError |
| TransXChange.ProcessVehicleJourneys | transx2gtfs/transxchange.py:96-287 | the journey loop, then service-id assignment in place, equals VehicleJourneysInfo |
| TransXChange.GtfsInfoOf | transx2gtfs/transxchange.py:290-325 | a document without sections, journeys or services is an AttributeError |
| TransXChange.GetGtfsInfo | transx2gtfs/transxchange.py:290-325 | the method equals GtfsInfoOf |
| TransXChange.WrittenTimes | transx2gtfs/transxchange.py:194-262 | stamps start at the departure, and the closing stop repeats the last link's run time |
| TransXChange.WrittenTimesStep | transx2gtfs/transxchange.py:201-202 | link j's From stop is stamped link j's own run time after link j-1's |
| TransXChange.WrittenTimesSum | transx2gtfs/transxchange.py:194-202 | link k is stamped at the departure plus the run times of links 1..k; link 0's is never added |
| TransXChange.WrittenTimesNondecreasing | transx2gtfs/transxchange.py:201-202 | with non-negative run times the cursor never goes back |
| TransXChange.LinksFromStart | transx2gtfs/transxchange.py:185-256 | the walk of a first section succeeds, and row k is link k's From stop at WrittenTimes[k], numbered `stop_num` + k |
| TransXChange.FirstSectionShape | transx2gtfs/transxchange.py:176-279 | the section step walks the links, then appends the closing row to a fresh `section_times` |
| TransXChange.FirstSectionRows | transx2gtfs/transxchange.py:163-279 | a first section of n links gives n+1 rows numbered 1..n+1; timepoint 1 only on the first; the closing row reuses the counter and has no exceptions |
| TransXChange.ClosingRowWritten | transx2gtfs/transxchange.py:260-279 | the closing row is the last link's To stop at the written closing time, with timepoint 0 |
| TransXChange.FirstStopClock | transx2gtfs/transxchange.py:196-222 | the first stop shows `HH:MM:00` of the departure, its seconds dropped |
| TransXChange.SkipUnmatched | transx2gtfs/transxchange.py:176-177 | sections outside the pattern's references change nothing |
| TransXChange.SingleMatchedSection | transx2gtfs/transxchange.py:164-279 | with one referenced section, the section loop leaves exactly that section's rows |
| TransXChange.LinkWalkGrows | transx2gtfs/transxchange.py:185-256 | the link loop appends one row per link, moves `stop_num` on by the number of links and keeps the rows of its first step in front |
| TransXChange.LaterWalkFirstRow | transx2gtfs/transxchange.py:185-256 | a link loop started with the clock running numbers its rows from the carried `stop_num`; its first row has timepoint 0 and is stamped at the carried cursor plus the first link's run time |
| TransXChange.MatchedSectionRows | transx2gtfs/transxchange.py:181-279 | a referenced section's `section_times` is its link rows followed by the closing row, and `stop_num` goes on from where the link loop ended |
| TransXChange.LastMatchedSectionWins | transx2gtfs/transxchange.py:181-282 | `section_times` is reset per matched section, so only the last matched section's rows are kept |
| TransXChange.JourneyAppends | transx2gtfs/transxchange.py:282 | a journey appends what the section loop leaves in `section_times`; if it was never set that is an UnboundLocalError |
| TransXChange.UnmatchedJourneyRepeats | transx2gtfs/transxchange.py:164-282 | a journey matching no section appends the previous journey's rows again, or fails as the first journey |
| Calendar.ProfileText | transx2gtfs/calendar.py:27-38 | the element names joined with `\|` (the single name when there is one), or None without a profile |
| Calendar.WeekdayInfo | transx2gtfs/calendar.py:24-38 | a journey's weekdays are its profile's names joined with `\|`, or None |
| Calendar.ServiceOperativeDaysInfo | transx2gtfs/calendar.py:4-21 | the single Service's profile names joined with `\|`; None when missing or with several services |
| Calendar.DayNumber | transx2gtfs/calendar.py:43-45 | a known lower-case day name maps to 0..6 |
| Calendar.Span | transx2gtfs/calendar.py:66-68 | the days from a to b inclusive, and none when b < a |
| Calendar.ActiveDays | transx2gtfs/calendar.py:54-78 | active days lie in 0..6; the only failure is an unknown day name (KeyError) |
| Calendar.DayMask | transx2gtfs/calendar.py:81-92 | exactly seven 0/1 flags, and flag k is 1 exactly when day k is active |
| Calendar.CollectRange | transx2gtfs/calendar.py:66-68 | the range loop collects exactly first..last |
| Calendar.CollectDays | transx2gtfs/calendar.py:72-74 | the pipe loop succeeds when every name is known, and collects exactly the named days |
| Calendar.FlagRow | transx2gtfs/calendar.py:81-92 | the flag loop equals DayMask of the collected days |
| Calendar.ParseDayRange | transx2gtfs/calendar.py:40-96 | the row is DayMask of ActiveDays, and the only error is a KeyError |
| Calendar.WeekendWins | transx2gtfs/calendar.py:55-57 | any text whose stripped, lower-cased form contains `weekend` is exactly Saturday and Sunday, whatever else it names |
| Calendar.WeekendExamples | transx2gtfs/calendar.py:55-57 | `Weekend` and `Monday\|Weekend` are both Saturday and Sunday |
| Calendar.RangeOf | transx2gtfs/calendar.py:60-68 | `XToY` for two day names is the inclusive span from X to Y |
| Calendar.RangeExamples | transx2gtfs/calendar.py:60-68 | `MondayToFriday` is days 0..4; `FridayToMonday` is empty, with no wrap-around |
| Calendar.SingleDay | transx2gtfs/calendar.py:77-78 | a single day name gives only that day |
| Calendar.SingleDayExamples | transx2gtfs/calendar.py:77-78 | `Sunday` gives {6} and `Saturday` gives {5} |
| Calendar.JoinedDayNames | transx2gtfs/calendar.py:71-74 | the `\|`-joined day names of a profile read back as exactly those days |
| Calendar.CalendarLoop | transx2gtfs/calendar.py:110-123 | the row loop equals the row-by-row calendar readings |
| Calendar.GetCalendar | transx2gtfs/calendar.py:98-137 | `get_calendar` equals CalendarOf |
| Calendar.CalendarRowsShape | transx2gtfs/calendar.py:110-123 | the calendar succeeds exactly when every row's weekdays parse, and row k is row k's reading |
| Calendar.CalendarRowsOfDistinct | transx2gtfs/calendar.py:101-129 | one calendar row per distinct (service_id, weekdays, start_date, end_date), in first-occurrence order, with the flags of its weekdays |
| Calendar.CalendarKeysOncePerRow | transx2gtfs/calendar.py:101-104 | each key of the input occurs exactly once among the deduplicated rows |
| Calendar.CalendarNeedsWeekdays | transx2gtfs/calendar.py:112-115 | a row without weekdays makes the calendar fail |
| CalendarDates.CalendarDatesExceptions | transx2gtfs/calendar_dates.py:21-34 | the journey's non-operation names joined with `\|`, or None |
| CalendarDates.ServiceCalendarDatesExceptions | transx2gtfs/calendar_dates.py:6-18 | the single Service's non-operation names joined with `\|`, or None |
| CalendarDates.NonOperativeTexts | transx2gtfs/calendar_dates.py:57-58 | exactly the non-null non-operative-days values of the rows |
| CalendarDates.Unrecognized | transx2gtfs/calendar_dates.py:49-82 | a label is warned about exactly when it is neither a known holiday nor `AllBankHolidays` |
| CalendarDates.CollectLabels | transx2gtfs/calendar_dates.py:61-72 | the label loop equals LabelList: `\|` values are split, and single values are kept when not empty |
| CalendarDates.Labelled | transx2gtfs/calendar_dates.py:57 | the rows kept are exactly those with a non-operative-days value |
| CalendarDates.DateRows | transx2gtfs/calendar_dates.py:112-118 | one row per holiday date, for the service, with exception type 2 |
| CalendarDates.ExpandExceptions | transx2gtfs/calendar_dates.py:110-118 | the nested service-by-date loops equal ExceptionRows |
| CalendarDates.GetCalendarDates | transx2gtfs/calendar_dates.py:36-123 | the warnings are exactly the unrecognised labels, and the result equals CalendarDatesOf |
| CalendarDates.ExceptionRowsMembers | transx2gtfs/calendar_dates.py:104-118 | one row per (service, date) pair, all of type 2 |
| CalendarDates.ServiceIdsProperties | transx2gtfs/calendar_dates.py:97-98 | the services are exactly those of the labelled rows, each once |
| CalendarDates.CalendarDatesRows | transx2gtfs/calendar_dates.py:84-118 | with labels and holidays in the window, the rows are exactly (labelled service, any holiday date, type 2); the labels given play no part |
| CalendarDates.NoLabelsNoExceptions | transx2gtfs/calendar_dates.py:84-88 | without labels the result is None |
| CalendarDates.ProfileLabels | transx2gtfs/calendar_dates.py:66-68 | the labels of a joined profile text are its element names |
| CalendarDates.EmptyPieceWarned | transx2gtfs/calendar_dates.py:66-82 | an empty value gives no label, but `GoodFriday\|` gives an empty label that is warned about |
| BankHolidays.BankHolidayDates | transx2gtfs/bank_holidays.py:5-48 | a region outside the three is an assertion failure and one missing from the table a KeyError; results are 8-digit texts, with None for an empty selection |
| BankHolidays.Window | transx2gtfs/bank_holidays.py:36-37 | the selected holidays are exactly those from the start to the end date, both included |
| BankHolidays.BankHolidayDatesWindow | transx2gtfs/bank_holidays.py:33-48 | the result is the YYYYMMDD text of the window's events in table order, or None when the window is empty |
| BankHolidays.WindowEmpty | transx2gtfs/bank_holidays.py:40-41 | None exactly when no event of the region falls in the window |
| BankHolidays.WindowTexts | transx2gtfs/bank_holidays.py:44-46 | the texts are exactly those of the events in the window |
| BankHolidays.MinText | transx2gtfs/bank_holidays.py:33 | the column minimum is in the column and no value is below it |
| BankHolidays.MaxText | transx2gtfs/bank_holidays.py:34 | the column maximum is in the column and no value is above it |
| BankHolidays.EarliestStart | transx2gtfs/bank_holidays.py:33 | on YYYYMMDD dates the string minimum is the earliest start date |
| BankHolidays.LatestEnd | transx2gtfs/bank_holidays.py:34 | on YYYYMMDD dates the string maximum is the latest end date |
| BankHolidays.HolidayTextsAscending | transx2gtfs/bank_holidays.py:37-46 | a chronological table gives the texts in ascending order |
| Dates.ParseDate | transx2gtfs/transxchange.py:385-386 | `strptime` gives only real calendar dates, and fails with ValueError |
| Dates.ParseDateText | transx2gtfs/transxchange.py:385-386 | `strptime` reads back what `strftime` wrote |
| Dates.CompactOrder | transx2gtfs/bank_holidays.py:33-34 | the YYYYMMDD texts order as the dates do |
| Tables.DistinctByProperties | transx2gtfs/trips.py:15 | `drop_duplicates`: the same keys, each once, each the first row of its key, in first-appearance order |
| Tables.SortDistinct | transx2gtfs/stop_times.py:30-32 | the keys in strictly ascending order, none lost or added |
| StopTimes.Direction | transx2gtfs/stop_times.py:4-11 | `inbound` is 0 and `outbound` is 1, each an if-and-only-if; anything else is a ValueError |
| StopTimes.WeekdayGroups | transx2gtfs/stop_times.py:48-54 | the groups are the journeys' weekday strings, ascending, each once |
| StopTimes.Group | transx2gtfs/stop_times.py:54-56 | a group holds exactly the journeys (first rows) of its weekday string |
| StopTimes.WithServiceIds | transx2gtfs/stop_times.py:41-69 | the same rows with only the service id changed, set to the id of the journey's group |
| StopTimes.ClearServiceIds | transx2gtfs/stop_times.py:45 | every row's service id becomes None and nothing else changes |
| StopTimes.SetServiceId | transx2gtfs/stop_times.py:68 | rows of the listed journeys get the id; the others are unchanged |
| StopTimes.GenerateServiceId | transx2gtfs/stop_times.py:41-69 | the frame is rewritten in place to WithServiceIds of its old rows |
| StopTimes.IdAfterAll | transx2gtfs/stop_times.py:54-68 | after all groups each journey holds the id of its own group |
| StopTimes.GroupServiceIdOrigin | transx2gtfs/stop_times.py:59-65 | a group's id is `ref_start_end_weekdays` of a journey in the group |
| StopTimes.SameWeekdaysShareServiceId | transx2gtfs/stop_times.py:48-68 | rows with the same weekday string get the same service id, whatever their service ref or dates |
| StopTimes.NoWeekdaysNoServiceId | transx2gtfs/stop_times.py:45-51 | a journey without weekdays is in no group and keeps no service id |
| StopTimes.DistinctWeekdaysDistinctIds | transx2gtfs/stop_times.py:65 | when one ref and one date range hold throughout, different weekday strings give different ids |
| StopTimes.TripRows | transx2gtfs/stop_times.py:30-32 | a trip's group is exactly its rows |
| StopTimes.TripIds | transx2gtfs/stop_times.py:30-32 | the trips, ascending and each once |
| StopTimes.GetStopTimes | transx2gtfs/stop_times.py:14-38 | the group loop equals StopTimesOf |
| StopTimes.StopTimesByTrip | transx2gtfs/stop_times.py:16-36 | a trip keeps all its distinct six-column rows when it has more than one, and none otherwise |
| StopTimes.StopTimesKeepSequences | transx2gtfs/stop_times.py:19-36 | every output trip has at least two rows; the output rows of a trip are exactly its input rows cut to the six columns |
| StopTimes.SingleRowTripDropped | transx2gtfs/stop_times.py:33-36 | a trip with a single row is left out |
| Routes.Mode | transx2gtfs/routes.py:4-15 | tram/trolleyBus 0, underground/metro 1, rail 2, bus/coach 3, ferry 4, each an if-and-only-if; any other mode None |
| Routes.RouteType | transx2gtfs/routes.py:17-20 | the mode of the document's single Service; an error otherwise |
| Routes.AgencyOf | transx2gtfs/routes.py:34 | the agency of the first row of the route; an IndexError exactly when none has it |
| Routes.ShortNameSpec | transx2gtfs/routes.py:40-43 | the short name is the PrivateCode up to its first `-_-`, or all of it when there is none |
| Routes.ShortNameExamples | transx2gtfs/routes.py:43 | `1-_-A` gives `1`; `N73` gives `N73` |
| Routes.GetRoutes | transx2gtfs/routes.py:22-67 | the route loop equals RoutesOf: an AttributeError without Route elements, the first failed agency or mode lookup, else one row per Route with the shared integer route type |
| Routes.RouteEntriesShape | transx2gtfs/routes.py:29-60 | one entry per Route in order, with its id, the agency lookup, the short name and the shared route type |
| Routes.RoutesShape | transx2gtfs/routes.py:25-66 | one row per Route, all with the same integer route type |
| Routes.NoRoutesFails | transx2gtfs/routes.py:29 | without Route elements the `Route` lookup that starts the loop fails with an AttributeError |
| Routes.UnknownModeFails | transx2gtfs/routes.py:4-63 | a mode outside the table makes `get_routes` fail, whatever the routes and agencies |
| Routes.UnknownModeTypeError | transx2gtfs/routes.py:17-63 | with at least one Route and every route's agency found, a mode outside the table fails exactly at the integer conversion of None (TypeError) |
| Routes.RouteEntriesOk | transx2gtfs/routes.py:29-60 | the route loop gets through whenever the mode lookup and every agency lookup do |
| Agency.AgencyUrl | transx2gtfs/agency.py:3-19 | the eight listed operators map to their fixed URLs; any other code gives `NA` |
| Agency.AgencyUrlKnown | transx2gtfs/agency.py:16-19 | a code has a URL exactly when it is listed, and every URL starts with `https://` |
| Agency.AgencyOf | transx2gtfs/agency.py:21-49 | one row with the Operator's id, name and URL, Europe/London and en; with other than one Operator an AttributeError |
| Trips.TripsOnePerKey | transx2gtfs/trips.py:10-22 | one row per distinct (route, service, trip), from its first row, in first-appearance order |
| Trips.TripHeadsign | transx2gtfs/trips.py:2-8 | succeeds exactly when there is one Service whose ServiceCode text is the reference and which has a Description, giving that description; a single coded Service with another code is a ValueError |
| Trips.HeadsignExample | transx2gtfs/trips.py:2-8 | the Service of code `PB0002032:467` gives its description for that code and a ValueError for another |
| Distribute.CeilDiv | transx2gtfs/distribute.py:26 | the batch size is the ceiling of n / k |
| Distribute.CoreCount | transx2gtfs/distribute.py:15-20 | an integer worker count is used as given, None means the core count, and anything else fails the assertion |
| Distribute.CreateWorkers | transx2gtfs/distribute.py:11-49 | `create_workers` equals WorkersOf; a zero count is a division error |
| Distribute.BuildWorkers | transx2gtfs/distribute.py:29-48 | worker i gets `files[i·b:(i+1)·b]` and the last `files[(k-1)·b:]` |
| Distribute.PartitionConcat | transx2gtfs/distribute.py:29-48 | the selections, concatenated in order, are the input: nothing lost, nothing twice |
| Distribute.SelectionSizes | transx2gtfs/distribute.py:26-40 | with the ceiling batch size no worker gets more than a batch |
| Distribute.CreateWorkersPartition | transx2gtfs/distribute.py:29-49 | all workers share the size limit and the database, and together hold the input in order |
| Distribute.FiveFilesTwoWorkers | transx2gtfs/distribute.py:26-48 | five files on two workers split three and two |
| Converter.CreateWorkers | transx2gtfs/converter.py:91-125 | the loop equals one worker per core, each with its batch |
| Converter.ConverterPartition | transx2gtfs/converter.py:95-124 | as many workers as cores, all sharing limit, stops file and database, together holding the input in order |

## Left out

- `datetime.now()`: the reference date is implicit, because times count seconds from its midnight. The calendar date itself is never shown.
- Untangle element tree: the parsed document is given as plain records. An AttributeError from a missing element is modelled only for the repeated elements, which are lists here (Services, Operators, Routes, JourneyPatternSections, VehicleJourneys), and for the fields typed `Option` (the Service Description and ServiceCode, the vehicle type, the operating profiles). Every single child element typed `string` is assumed present, as the TransXChange schema requires, so the AttributeError the code raises when one is missing is not modelled. These are: the Route Description, PrivateCode and RouteSectionRef (routes.py:37-46); the Operator OperatorNameOnLicence (agency.py:30); the Service Mode (routes.py:19), LineName, RegisteredOperatorRef, OperatingPeriod dates, Origin and Destination; the VehicleJourney ServiceRef, JourneyPatternRef, VehicleJourneyCode and DepartureTime (transxchange.py:117-156); the JourneyPattern Direction, RouteRef and JourneyPatternSectionRefs (transxchange.py:397-408); and the timing link From and To StopPointRef, RouteLinkRef and RunTime (transxchange.py:13, transxchange.py:188).
- Pandas dtypes: `astype(int)` on flags and stop sequences, float columns and NaN are left out. A pattern whose travel mode is unknown is modelled as failing `int(travel_mode)` (transxchange.py:153) with a TypeError, as `int(None)` does; inside a pandas column the value may be NaN, for which Python raises ValueError instead.
- Progress prints and `print` of dropped trips (stop_times.py:36, transxchange.py:114-115, converter.py:117).
- The warnings machinery: warnings are returned as a set of labels by `CalendarDates.GetCalendarDates`.
- The bank-holiday fetch from the web and the bundled file (bank_holidays.py:15-30): the table of dated events per region is an input.
- The date-index slice of the holiday table is modelled as an inclusive filter on the dates. Pandas may refuse such a slice on an index that is not sorted; the model does not.
- `stops.py` (floating-point coordinate transforms), `dataio.py` (sqlite, ZIP, CSV) and the rest of `converter.py` (file globbing, parsing, the process pool, the size filter) are not part of this model.
- The unused `process` function (transxchange.py:56-93) is not part of this model.
- An empty gtfs_info table is read as a frame that still has its columns, so `StopTimes.StopTimesOf`, `Trips.TripsOf`, `CalendarDates.CalendarDatesOf`, `StopTimes.GenerateServiceId` and `Routes.AgencyOf` give an empty result, None, no change or an IndexError on it. A frame without columns, which is how the code builds its own empty results, raises KeyError at the first column lookup instead (stop_times.py:19, stop_times.py:48, trips.py:15, calendar_dates.py:57, routes.py:34). The converter never passes such a table on, because `TransXChange.VehicleJourneysInfo` already fails with KeyError on an empty one.
- `Distribute.CreateWorkers` and `Converter.CreateWorkers`: the number of cores is a parameter. For the converter it is at least one, as `cpu_count()` promises.
- Trips.TripHeadsign: the ServiceCode is modelled by its text, so the comparison at trips.py:5 is a comparison of texts. Its outcome rests on the equality the untangle element class defines with a string, and that class is not part of this model.
- Text.Lower, Text.Strip, Text.ParseInt, Dates.ParseDate: only ASCII is modelled. Python's `lower()` also maps non-ASCII letters (the Kelvin sign U+212A becomes `k`), `strip()` also removes non-ASCII whitespace such as U+00A0, `int()` also accepts `_` digit separators (`int("1_5")` is 15) and non-ASCII digits, and the `%Y`, `%m` and `%d` fields of `strptime` also match non-ASCII digits. So the weekend test (calendar.py:55) and the integer parses of run times and departure times (transxchange.py:156-158, transxchange.py:338-348) and the date reads can differ from the source on such text.

## Findings

| source | as written | input that shows it | evidently intended | confidence | as-written member | corrected member |
|---|---|---|---|---|---|---|
| transx2gtfs/transxchange.py:346-348 | the S part of a run time is multiplied by `MINUTE_IN_SECONDS` | `PT30S` gives 1800 | S counts seconds, as in ISO 8601 durations, so `PT30S` gives 30 | not executed | TransXChange.ThirtySecondsFinding | TransXChange.TokenIntendedSeconds |
| transx2gtfs/transxchange.py:191-202 | a later link advances the cursor by its own run time, and the first link's run time is never added | links of 60 s and 120 s from 00:00 stamp the stops 0, 120, 240 | each stop is reached the previous link's run time after the stop before: 0, 60, 180 | not executed | TransXChange.OneLinkLateFinding | TransXChange.IntendedLinksFromStart |
| transx2gtfs/transxchange.py:46-52 | the hours past midnight are counted from 23:59:59 | a 23:00 journey at 00:59:59 next day shows hour 25 | past midnight the hours go on from 24, so 00:59:59 shows as 24:59:59 | not executed | TransXChange.LastSecondOfHourFinding | TransXChange.IntendedClockElapsed |
