/** The timing expander: TransXChange run-time tokens read as seconds, stop
    times rendered past midnight, the journey-pattern table of the services,
    and the per-journey walk over the pattern sections that produces the
    gtfs_info rows.

    A datetime is the number of seconds since midnight of the reference date
    (the date the conversion runs on); every datetime the converter handles
    is that date plus a number of seconds, so the date itself never shows. */
module TransXChange {
  import opened Results
  import opened Text
  import opened Tables
  import opened Dates
  import opened Records
  import Calendar
  import CalendarDates
  import StopTimes
  import Routes

  // ---------------------------------------------------------------------------
  // Run-time tokens

  const HourInSeconds: int := 60 * 60
  const MinuteInSeconds: int := 60

  /** One optional part of a run-time token: when the unit letter occurs, the
      number before its first occurrence times the weight, and the text up to
      its next occurrence; otherwise nothing, and the text unchanged. */
  function UnitPart(runtime: string, unit: char, weight: int): (r: Result<(int, string)>)
    ensures unit !in runtime ==> r == Ok((0, runtime))
    ensures r.Err? ==> r.error == ValueError
  {
    ContainsChar(runtime, unit);
    if unit in runtime then
      var split := Split(runtime, [unit]);
      match ParseInt(split[0])
      case None => Err(ValueError)
      case Some(n) => Ok((n * weight, split[1]))
    else Ok((0, runtime))
  }

  /** The seconds of a run-time token whose seconds part weighs `secondWeight`:
      the text after the first `PT`, then optional H, M and S parts in that
      order. Without `PT` there is no text after it. */
  function WeightedSeconds(runtime: string, secondWeight: int): (r: Result<int>)
    ensures r == Err(IndexError) <==> !Contains(runtime, "PT")
    ensures r.Err? ==> r.error == IndexError || r.error == ValueError
  {
    var pieces := Split(runtime, "PT");
    if |pieces| < 2 then
      assert !Contains(runtime, "PT");
      Err(IndexError)
    else
      assert Contains(runtime, "PT") by {
        if !Contains(runtime, "PT") { SplitNoSeparator(runtime, "PT"); }
      }
      var h :- UnitPart(pieces[1], 'H', HourInSeconds);
      var m :- UnitPart(h.1, 'M', MinuteInSeconds);
      var s :- UnitPart(m.1, 'S', secondWeight);
      Ok(h.0 + m.0 + s.0)
  }

  /** `parse_runtime_duration` as written: the S part is weighted like a minute. */
  function RuntimeSeconds(runtime: string): (r: Result<int>)
    ensures r == Err(IndexError) <==> !Contains(runtime, "PT")
  {
    WeightedSeconds(runtime, MinuteInSeconds)
  }

  /** The reading the docstring and ISO 8601 durations call for: S is seconds. */
  function IntendedRuntimeSeconds(runtime: string): (r: Result<int>)
    ensures r == Err(IndexError) <==> !Contains(runtime, "PT")
  {
    WeightedSeconds(runtime, 1)
  }

  /** `parse_runtime_duration`, step by step: `time` accumulates, `runtime`
      shrinks to the text after each unit letter. */
  method ParseRuntimeDuration(runtime: string) returns (r: Result<int>)
    ensures r == RuntimeSeconds(runtime)
  {
    var time := 0;
    var pieces := Split(runtime, "PT");
    if |pieces| < 2 {
      return Err(IndexError);
    }
    var rest := pieces[1];
    ContainsChar(rest, 'H');
    if 'H' in rest {
      var split := Split(rest, "H");
      var n := ParseInt(split[0]);
      if n.None? {
        return Err(ValueError);
      }
      time := time + n.value * HourInSeconds;
      rest := split[1];
    }
    assert UnitPart(pieces[1], 'H', HourInSeconds) == Ok((time, rest));
    ghost var hours, afterH := time, rest;
    ContainsChar(rest, 'M');
    if 'M' in rest {
      var split := Split(rest, "M");
      var n := ParseInt(split[0]);
      if n.None? {
        return Err(ValueError);
      }
      time := time + n.value * MinuteInSeconds;
      rest := split[1];
    }
    assert UnitPart(afterH, 'M', MinuteInSeconds) == Ok((time - hours, rest));
    ghost var minutes, afterM := time, rest;
    ContainsChar(rest, 'S');
    if 'S' in rest {
      var split := Split(rest, "S");
      var n := ParseInt(split[0]);
      if n.None? {
        return Err(ValueError);
      }
      time := time + n.value * MinuteInSeconds;
    }
    assert UnitPart(afterM, 'S', MinuteInSeconds).Ok? && UnitPart(afterM, 'S', MinuteInSeconds).value.0 == time - minutes;
    WeightedSecondsOfParts(runtime, MinuteInSeconds, hours, minutes - hours, time - minutes, afterH, afterM);
    r := Ok(time);
  }

  /** A well-formed token: `PT`, then each present part as digits and its letter. */
  datatype RunTime = RunTime(hours: Option<nat>, minutes: Option<nat>, seconds: Option<nat>)

  function PartText(n: Option<nat>, unit: char): string {
    if n.Some? then NatToString(n.value) + [unit] else ""
  }

  function Token(d: RunTime): string {
    "PT" + PartText(d.hours, 'H') + PartText(d.minutes, 'M') + PartText(d.seconds, 'S')
  }

  function PartValue(n: Option<nat>): nat {
    if n.Some? then n.value else 0
  }

  lemma PartTextChars(n: Option<nat>, unit: char, c: char)
    requires c != unit && !IsDigit(c)
    ensures c !in PartText(n, unit)
  {
    if n.Some? {
      var digits := NatToString(n.value);
      assert PartText(n, unit) == digits + [unit];
      assert forall i :: 0 <= i < |digits| ==> IsDigit(digits[i]);
    }
  }

  /** A present part is read and removed; an absent one leaves the text alone. */
  lemma UnitPartOf(n: Option<nat>, unit: char, weight: int, rest: string)
    requires !IsDigit(unit) && unit !in rest
    ensures UnitPart(PartText(n, unit) + rest, unit, weight) == Ok((PartValue(n) * weight, rest))
  {
    if n.Some? {
      var digits := NatToString(n.value);
      assert unit !in digits by {
        assert forall i :: 0 <= i < |digits| ==> IsDigit(digits[i]);
      }
      var s := PartText(n, unit) + rest;
      assert s == digits + [unit] + rest;
      SplitAtFirstChar(digits, [unit], rest);
      SplitAbsentChar(rest, [unit]);
      assert Split(s, [unit]) == [digits, rest];
      ParseIntToString(n.value);
      assert unit in s by { assert s[|digits|] == unit; }
    } else {
      assert PartText(n, unit) + rest == rest;
    }
  }

  function Body(d: RunTime): string {
    PartText(d.hours, 'H') + PartText(d.minutes, 'M') + PartText(d.seconds, 'S')
  }

  /** The text after `PT` is the rest of the token. */
  lemma TokenPieces(d: RunTime)
    ensures Split(Token(d), "PT") == ["", Body(d)]
  {
    var body := Body(d);
    assert Token(d) == "" + "PT" + body;
    SplitAtFirst("", "PT", body);
    PartTextChars(d.hours, 'H', 'P');
    PartTextChars(d.minutes, 'M', 'P');
    PartTextChars(d.seconds, 'S', 'P');
    assert 'P' !in body;
    SplitAbsentChar(body, "PT");
  }

  /** Every well-formed token reads as its weighted parts. */
  lemma TokenWeightedSeconds(d: RunTime, secondWeight: int)
    ensures WeightedSeconds(Token(d), secondWeight) ==
      Ok(PartValue(d.hours) * HourInSeconds + PartValue(d.minutes) * MinuteInSeconds
         + PartValue(d.seconds) * secondWeight)
  {
    TokenPieces(d);
    BodyUnits(d, secondWeight);
    var pm, ps := PartText(d.minutes, 'M'), PartText(d.seconds, 'S');
    WeightedSecondsOfParts(Token(d), secondWeight, PartValue(d.hours) * HourInSeconds,
                           PartValue(d.minutes) * MinuteInSeconds, PartValue(d.seconds) * secondWeight, pm + ps, ps);
  }

  /** A run time whose three unit parts read well sums them. */
  lemma WeightedSecondsOfParts(runtime: string, secondWeight: int, hs: int, ms: int, ss: int, afterH: string, afterM: string)
    requires |Split(runtime, "PT")| >= 2
    requires UnitPart(Split(runtime, "PT")[1], 'H', HourInSeconds) == Ok((hs, afterH))
    requires UnitPart(afterH, 'M', MinuteInSeconds) == Ok((ms, afterM))
    requires UnitPart(afterM, 'S', secondWeight).Ok? && UnitPart(afterM, 'S', secondWeight).value.0 == ss
    ensures WeightedSeconds(runtime, secondWeight) == Ok(hs + ms + ss)
  {
  }

  /** The three unit parts of a token's body, read in turn. */
  lemma BodyUnits(d: RunTime, secondWeight: int)
    ensures var pm, ps := PartText(d.minutes, 'M'), PartText(d.seconds, 'S');
      && UnitPart(Body(d), 'H', HourInSeconds) == Ok((PartValue(d.hours) * HourInSeconds, pm + ps))
      && UnitPart(pm + ps, 'M', MinuteInSeconds) == Ok((PartValue(d.minutes) * MinuteInSeconds, ps))
      && UnitPart(ps, 'S', secondWeight) == Ok((PartValue(d.seconds) * secondWeight, ""))
  {
    var ph, pm, ps := PartText(d.hours, 'H'), PartText(d.minutes, 'M'), PartText(d.seconds, 'S');
    PartTextChars(d.minutes, 'M', 'H');
    PartTextChars(d.seconds, 'S', 'H');
    PartTextChars(d.seconds, 'S', 'M');
    assert Body(d) == ph + (pm + ps);
    UnitPartOf(d.hours, 'H', HourInSeconds, pm + ps);
    UnitPartOf(d.minutes, 'M', MinuteInSeconds, ps);
    assert ps == ps + "";
    UnitPartOf(d.seconds, 'S', secondWeight, "");
  }

  /** As written, hours weigh 3600, minutes 60 and seconds 60 as well. */
  lemma TokenSeconds(d: RunTime, runtime: string)
    requires runtime == Token(d)
    ensures RuntimeSeconds(runtime) ==
      Ok(3600 * PartValue(d.hours) + 60 * PartValue(d.minutes) + 60 * PartValue(d.seconds))
  {
    TokenWeightedSeconds(d, MinuteInSeconds);
  }

  /** Read as intended, a token is its length in seconds. */
  lemma TokenIntendedSeconds(d: RunTime, runtime: string)
    requires runtime == Token(d)
    ensures IntendedRuntimeSeconds(runtime) ==
      Ok(3600 * PartValue(d.hours) + 60 * PartValue(d.minutes) + PartValue(d.seconds))
  {
    TokenWeightedSeconds(d, 1);
  }

  /** `PT1H2M` is 3720 seconds. */
  lemma HourAndMinutesExample(runtime: string)
    requires runtime == "PT1H2M"
    ensures RuntimeSeconds(runtime) == Ok(3720)
  {
    var d := RunTime(Some(1), Some(2), None);
    assert Token(d) == runtime by { assert NatToString(1) == "1" && NatToString(2) == "2"; }
    TokenSeconds(d, runtime);
  }

  /** `PT45M` is 2700 seconds. */
  lemma MinutesExample(runtime: string)
    requires runtime == "PT45M"
    ensures RuntimeSeconds(runtime) == Ok(2700)
  {
    var d := RunTime(None, Some(45), None);
    assert Token(d) == runtime by { assert NatToString(45) == "45"; }
    TokenSeconds(d, runtime);
  }

  lemma MissingPrefixExample()
    ensures RuntimeSeconds("45M") == Err(IndexError)
  {
    AbsentCharNotContained("45M", "PT", 0);
  }

  /** `PT30S`, thirty seconds, reads as half an hour ... */
  lemma ThirtySecondsAsWritten(runtime: string)
    requires runtime == "PT30S"
    ensures RuntimeSeconds(runtime) == Ok(1800)
  {
    var d := RunTime(None, None, Some(30));
    assert Token(d) == runtime by { assert NatToString(30) == "30"; }
    TokenSeconds(d, runtime);
  }

  /** ... where thirty seconds were meant. */
  lemma ThirtySecondsIntended(runtime: string)
    requires runtime == "PT30S"
    ensures IntendedRuntimeSeconds(runtime) == Ok(30)
  {
    var d := RunTime(None, None, Some(30));
    assert Token(d) == runtime by { assert NatToString(30) == "30"; }
    TokenIntendedSeconds(d, runtime);
  }

  /** The run time `PT30S` read as written and as intended. */
  lemma ThirtySecondsFinding(runtime: string)
    requires runtime == "PT30S"
    ensures RuntimeSeconds(runtime) == Ok(1800)
    ensures IntendedRuntimeSeconds(runtime) == Ok(30)
  {
    ThirtySecondsAsWritten(runtime);
    ThirtySecondsIntended(runtime);
  }

  // ---------------------------------------------------------------------------
  // Clock times past midnight

  const SecondsPerDay: int := 86400
  /** 23:59:59 of the reference date. */
  const LastSecondOfDay: int := 86399
  /** The extra dwell added to each departure. */
  const BoardingTime: int := 0

  /** `dt.hour`, `dt.minute` and `dt.second` of the datetime t seconds past the
      reference midnight (on whatever day it falls). */
  function HourOf(t: int): (h: int)
    ensures 0 <= h <= 23
  {
    (t % SecondsPerDay) / HourInSeconds
  }

  function MinuteOf(t: int): (m: int)
    ensures 0 <= m <= 59
  {
    (t % HourInSeconds) / MinuteInSeconds
  }

  function SecondOf(t: int): (s: int)
    ensures 0 <= s <= 59
  {
    t % MinuteInSeconds
  }

  lemma MulAtLeast(d: int, k: int)
    requires d > 0 && k >= 1
    ensures d * k >= d
  {
  }

  /** Quotient and remainder are the only such pair. */
  lemma DivModUnique(n: int, d: int, q: int, r: int)
    requires 0 < d && n == d * q + r && 0 <= r < d
    ensures n / d == q && n % d == r
  {
    var q', r' := n / d, n % d;
    assert n == d * q' + r';
    assert d * (q' - q) == r - r';
    if q' > q {
      MulAtLeast(d, q' - q);
    } else if q' < q {
      MulAtLeast(d, q - q');
    }
  }

  /** A day's seconds split into the clock fields. */
  lemma ClockFields(t: int)
    ensures t % SecondsPerDay == HourOf(t) * 3600 + MinuteOf(t) * 60 + SecondOf(t)
  {
    var days := t / SecondsPerDay;
    var d := t % SecondsPerDay;
    assert t == 86400 * days + d;
    var rem := d % 3600;
    assert d == 3600 * (d / 3600) + rem;
    DivModUnique(t, 3600, 24 * days + d / 3600, rem);
    assert rem == 60 * (rem / 60) + rem % 60;
    DivModUnique(t, 60, 60 * (24 * days + d / 3600) + rem / 60, rem % 60);
  }

  /** The division of a timedelta by an integer: the quotient of the
      microseconds, rounded half to even. */
  function RoundHalfEven(n: int, d: int): (q: int)
    requires d > 0
    ensures -d <= 2 * (n - d * q) <= d
  {
    var q := n / d;
    var r := n % d;
    assert n == d * q + r;
    if 2 * r > d || (2 * r == d && q % 2 == 1) then q + 1 else q
  }

  /** The hours past midnight the source computes for the datetime t: the
      timedelta from 23:59:59 divided by 60 twice, whose `.seconds` is taken
      as the hour count, plus one. */
  function Surplus(t: int): int {
    var micros := (t - LastSecondOfDay) * 1000000;
    var perMinute := RoundHalfEven(micros, 60);
    var perHour := RoundHalfEven(perMinute, 60);
    (perHour / 1000000) % SecondsPerDay + 1
  }

  /** The roundings never matter: the surplus is one more than the whole hours
      elapsed since 23:59:59, modulo a day's worth of seconds. */
  lemma SurplusHours(t: int)
    ensures Surplus(t) == ((t - LastSecondOfDay) / HourInSeconds) % SecondsPerDay + 1
  {
    var k := t - LastSecondOfDay;
    var q := k / 3600;
    var r := k % 3600;
    assert k == 3600 * q + r && 0 <= r < 3600;
    var micros := k * 1000000;
    var p1 := RoundHalfEven(micros, 60);
    var p2 := RoundHalfEven(p1, 60);
    assert -60 <= 2 * (micros - 60 * p1) <= 60;
    assert -60 <= 2 * (p1 - 60 * p2) <= 60;
    assert 1000000 * q <= p2 < 1000000 * q + 1000000;
    assert p2 / 1000000 == q;
  }

  /** `get_midnight_formatted_times`: when the arrival hour falls before the
      journey's starting hour the trip has passed midnight, and both hours
      become 23 plus the surplus of their datetimes, that is 24 plus the
      whole hours each stamp lies past 23:59:59. */
  function MidnightFormattedTimes(arrivalHour: int, departureHour: int, hour: int,
                                  arrival: int, departure: int): (r: (int, int))
    ensures arrivalHour >= hour ==> r == (arrivalHour, departureHour)
    ensures arrivalHour < hour ==> r == (24 + ((arrival - LastSecondOfDay) / HourInSeconds) % SecondsPerDay,
                                         24 + ((departure - LastSecondOfDay) / HourInSeconds) % SecondsPerDay)
  {
    SurplusHours(arrival);
    SurplusHours(departure);
    if arrivalHour < hour then (23 + Surplus(arrival), 23 + Surplus(departure))
    else (arrivalHour, departureHour)
  }

  /** The hour as text: `str(hour).zfill(2)`. */
  function HourText(h: int): string {
    ZFill(IntToString(h), 2)
  }

  /** `HH:MM:SS` with the given hour and the minutes and seconds of t. */
  function ClockText(h: int, t: int): string {
    HourText(h) + ":" + Pad(MinuteOf(t), 2) + ":" + Pad(SecondOf(t), 2)
  }

  /** The arrival and departure texts of a stop, for a journey that starts in
      hour `hour`. */
  function StampTexts(hour: int, arrival: int, departure: int): (string, string)
  {
    var hs := MidnightFormattedTimes(HourOf(arrival), HourOf(departure), hour, arrival, departure);
    (ClockText(hs.0, arrival), ClockText(hs.1, departure))
  }

  /** The displayed hour of a stop at t. */
  function DisplayHour(hour: int, t: int): (h: int)
    ensures h == MidnightFormattedTimes(HourOf(t), HourOf(t), hour, t, t).0
  {
    if HourOf(t) < hour then 23 + Surplus(t) else HourOf(t)
  }

  /** On the day after the reference date, an hour past midnight shows as 24
      and up, except that the last second of each hour shows one hour late. */
  lemma NextDayHour(hour: int, t: int)
    requires SecondsPerDay <= t < 2 * SecondsPerDay && HourOf(t) < hour
    ensures DisplayHour(hour, t) == 24 + HourOf(t) + (if t % HourInSeconds == HourInSeconds - 1 then 1 else 0)
  {
    SurplusHours(t);
    NextDayHours(t);
  }

  lemma NextDayHours(t: int)
    requires SecondsPerDay <= t < 2 * SecondsPerDay
    ensures HourOf(t) == (t - SecondsPerDay) / HourInSeconds
    ensures ((t - LastSecondOfDay) / HourInSeconds) % SecondsPerDay ==
      (t - SecondsPerDay) / HourInSeconds + (if t % HourInSeconds == HourInSeconds - 1 then 1 else 0)
  {
    var s := t - SecondsPerDay;
    var q, r := s / 3600, s % 3600;
    assert s == 3600 * q + r && 0 <= q < 24;
    assert t % SecondsPerDay == s;
    assert t % HourInSeconds == r;
    if r == 3599 {
      assert t - LastSecondOfDay == 3600 * (q + 1);
    } else {
      assert t - LastSecondOfDay == 3600 * q + r + 1;
    }
  }

  /** A stop reached in the same day keeps its clock hour. */
  lemma SameDayHour(hour: int, t: int)
    requires HourOf(t) >= hour
    ensures DisplayHour(hour, t) == HourOf(t)
  {
  }

  lemma PaddedExamples()
    ensures HourText(24) == "24" && HourText(7) == "07"
    ensures Pad(25, 2) == "25" && Pad(0, 2) == "00"
  {
    assert NatToString(24) == "24" && NatToString(7) == "7";
    assert NatToString(25) == "25" && NatToString(0) == "0";
    assert IntToString(24) == "24" && IntToString(7) == "7";
  }

  /** A journey leaving at 23:30 that reaches a stop at 00:25 next day shows 24:25:00. */
  lemma MidnightExample()
    ensures StampTexts(23, SecondsPerDay + 25 * 60, SecondsPerDay + 25 * 60) == ("24:25:00", "24:25:00")
  {
    var t := SecondsPerDay + 25 * 60;
    NextDayHour(23, t);
    PaddedExamples();
    assert MinuteOf(t) == 25 && SecondOf(t) == 0;
    assert ClockText(24, t) == "24:25:00";
  }

  /** The hour the comment in the source asks for: past midnight the hours go
      on from 24, counted from midnight rather than from 23:59:59. */
  function IntendedDisplayHour(hour: int, t: int): (h: int)
    ensures HourOf(t) >= hour ==> h == HourOf(t)
  {
    if HourOf(t) < hour then 23 + (t - SecondsPerDay) / HourInSeconds + 1 else HourOf(t)
  }

  /** With the intended hour, the clock text of a stop on the reference date
      or a stop reached after midnight spells the time elapsed since the
      reference midnight. */
  lemma IntendedClockElapsed(hour: int, t: int)
    requires 0 <= t
    requires HourOf(t) >= hour ==> t < SecondsPerDay
    ensures IntendedDisplayHour(hour, t) * 3600 + MinuteOf(t) * 60 + SecondOf(t) == t
  {
    ClockFields(t);
    var rem := t % 3600;
    assert t == 3600 * (t / 3600) + rem;
    assert rem == 60 * (rem / 60) + rem % 60;
    DivModUnique(t, 60, 60 * (t / 3600) + rem / 60, rem % 60);
    assert MinuteOf(t) * 60 + SecondOf(t) == rem;
    if HourOf(t) < hour {
      DivModUnique(t - SecondsPerDay, 3600, t / 3600 - 24, rem);
    } else {
      DivModUnique(t, SecondsPerDay, 0, t);
    }
  }

  /** As written, the last second of the first hour after midnight shows as
      hour 25, an hour late. */
  lemma LastSecondOfHourFinding()
    ensures DisplayHour(23, SecondsPerDay + 3599) == 25
    ensures IntendedDisplayHour(23, SecondsPerDay + 3599) == 24
    ensures DisplayHour(23, SecondsPerDay + 3599) * 3600 + 59 * 60 + 59 != SecondsPerDay + 3599
  {
    var t := SecondsPerDay + 3599;
    assert HourOf(t) == 0;
    NextDayHour(23, t);
  }

  /** Run times are read in whole minutes, since the S part weighs a minute;
      so as written every stop time is a whole minute and the late hour above
      does not show in converted feeds. */
  lemma RuntimeWholeMinutes(runtime: string)
    requires RuntimeSeconds(runtime).Ok?
    ensures RuntimeSeconds(runtime).value % 60 == 0
  {
    var pieces := Split(runtime, "PT");
    var h := UnitPart(pieces[1], 'H', HourInSeconds).value;
    var m := UnitPart(h.1, 'M', MinuteInSeconds).value;
    var sec := UnitPart(m.1, 'S', MinuteInSeconds).value;
    PartWholeMinutes(pieces[1], 'H', HourInSeconds);
    PartWholeMinutes(h.1, 'M', MinuteInSeconds);
    PartWholeMinutes(m.1, 'S', MinuteInSeconds);
    assert RuntimeSeconds(runtime).value == h.0 + m.0 + sec.0;
    DivModUnique(h.0 + m.0 + sec.0, 60, h.0 / 60 + m.0 / 60 + sec.0 / 60, 0);
  }

  lemma PartWholeMinutes(runtime: string, unit: char, weight: int)
    requires weight == 60 || weight == 3600
    requires UnitPart(runtime, unit, weight).Ok?
    ensures UnitPart(runtime, unit, weight).value.0 % 60 == 0
  {
    var v := UnitPart(runtime, unit, weight).value.0;
    if unit in runtime {
      var n := ParseInt(Split(runtime, [unit])[0]).value;
      assert v == n * weight;
      DivModUnique(v, 60, n * (weight / 60), 0);
    }
  }

  // ---------------------------------------------------------------------------
  // The closing stop of a section

  /** What `get_last_stop_time_info` returns. */
  datatype StopInfo = StopInfo(stopId: string, stopSequence: int, arrivalTime: string, departureTime: string)

  /** `get_last_stop_time_info`: the last link's To stop, reached `duration`
      seconds after the cursor and left `boardingTime` seconds after that. */
  function LastStopTimeInfo(link: TimingLink, hour: int, cursor: int, duration: int, stopNum: int,
                            boardingTime: int): StopInfo
  {
    var arrival := cursor + duration;
    var departure := arrival + boardingTime;
    var texts := StampTexts(hour, arrival, departure);
    StopInfo(link.toStop, stopNum, texts.0, texts.1)
  }

  /** Without a boarding time the closing stop is left when it is reached, at
      the clock time of cursor + duration. */
  lemma ClosingStopTimes(link: TimingLink, hour: int, cursor: int, duration: int, stopNum: int)
    ensures var r := LastStopTimeInfo(link, hour, cursor, duration, stopNum, BoardingTime);
      && r.arrivalTime == r.departureTime
      && r.arrivalTime == ClockText(DisplayHour(hour, cursor + duration), cursor + duration)
  {
  }

  // ---------------------------------------------------------------------------
  // The journey-pattern table

  /** One row per journey pattern of a service with a service code. */
  function PatternRowOf(svc: Service, code: string, startDate: string, endDate: string, jp: JourneyPattern): (r: Result<PatternRow>)
    ensures r.Err? <==> jp.direction != "inbound" && jp.direction != "outbound"
    ensures r.Ok? ==> r.value.directionId == (if jp.direction == "inbound" then 0 else 1)
    ensures r.Ok? ==> r.value.tripHeadsign == (if jp.direction == "inbound" then svc.origin else svc.destination)
    ensures r.Ok? ==> r.value.journeyPatternId == jp.id && r.value.sectionRef == jp.sectionRefs && r.value.routeId == jp.routeRef
  {
    match StopTimes.Direction(jp.direction)
    case Err(e) => Err(e)
    case Ok(direction) =>
      var headsign := if direction == 0 then svc.origin else svc.destination;
      Ok(PatternRow(jp.id, code, svc.operatorRef, svc.lineName, Routes.Mode(svc.mode), svc.description,
                    headsign, jp.sectionRefs, direction, jp.routeRef, jp.vehicleTypeCode,
                    jp.vehicleDescription, startDate, endDate))
  }

  function PatternStep(svc: Service, code: string, startDate: string, endDate: string)
    : (seq<PatternRow>, JourneyPattern) -> Result<seq<PatternRow>>
  {
    (rows: seq<PatternRow>, jp: JourneyPattern) =>
      match PatternRowOf(svc, code, startDate, endDate, jp)
      case Err(e) => Err(e)
      case Ok(row) => Ok(rows + [row])
  }

  /** The rows of one service appended to the table so far. A service without
      a code is skipped; its dates are read as YYYY-MM-DD and written as
      YYYYMMDD; iterating its patterns needs at least one JourneyPattern. */
  function ServiceStep(rows: seq<PatternRow>, svc: Service): Result<seq<PatternRow>> {
    match svc.serviceCode
    case None => Ok(rows)
    case Some(code) =>
      match ParseDate(svc.startDate, "-")
      case Err(e) => Err(e)
      case Ok(start) =>
        match ParseDate(svc.endDate, "-")
        case Err(e) => Err(e)
        case Ok(end) =>
          if |svc.patterns| == 0 then Err(AttributeError)
          else Fold(PatternStep(svc, code, CompactText(start), CompactText(end)), rows, svc.patterns)
  }

  /** `get_service_journey_pattern_info`: the rows of all coded services;
      iterating the services needs at least one Service element. */
  function PatternInfoOf(doc: Document): (r: Result<seq<PatternRow>>)
    ensures |doc.services| == 0 ==> r == Err(AttributeError)
  {
    if |doc.services| == 0 then Err(AttributeError) else Fold(ServiceStep, [], doc.services)
  }

  /** `get_service_journey_pattern_info`, appending row by row. */
  method ServiceJourneyPatternInfo(doc: Document) returns (r: Result<seq<PatternRow>>)
    ensures r == PatternInfoOf(doc)
  {
    var services := doc.services;
    if |services| == 0 {
      return Err(AttributeError);
    }
    var serviceJpInfo: seq<PatternRow> := [];
    for i := 0 to |services|
      invariant Fold(ServiceStep, [], services[..i]) == Ok(serviceJpInfo)
    {
      FoldStep(ServiceStep, [], services, i);
      var service := services[i];
      var serviceCode := service.serviceCode;
      if serviceCode.None? {
        continue;
      }
      var start := ParseDate(service.startDate, "-");
      if start.Err? {
        FoldErrSticks(ServiceStep, [], services, i + 1);
        return Err(start.error);
      }
      var end := ParseDate(service.endDate, "-");
      if end.Err? {
        FoldErrSticks(ServiceStep, [], services, i + 1);
        return Err(end.error);
      }
      var journeyPatterns := service.patterns;
      if |journeyPatterns| == 0 {
        FoldErrSticks(ServiceStep, [], services, i + 1);
        return Err(AttributeError);
      }
      var startDate, endDate := CompactText(start.value), CompactText(end.value);
      var step := PatternStep(service, serviceCode.value, startDate, endDate);
      var before := serviceJpInfo;
      for k := 0 to |journeyPatterns|
        invariant Fold(step, before, journeyPatterns[..k]) == Ok(serviceJpInfo)
      {
        FoldStep(step, before, journeyPatterns, k);
        var row := PatternRowOf(service, serviceCode.value, startDate, endDate, journeyPatterns[k]);
        if row.Err? {
          FoldErrSticks(step, before, journeyPatterns, k + 1);
          FoldErrSticks(ServiceStep, [], services, i + 1);
          return Err(row.error);
        }
        serviceJpInfo := serviceJpInfo + [row.value];
      }
      assert journeyPatterns[..|journeyPatterns|] == journeyPatterns;
    }
    assert services[..|services|] == services;
    r := Ok(serviceJpInfo);
  }

  /** A row of the table comes from a coded service and one of its patterns:
      it carries the service's operator, line, mode and code, the pattern's
      id, section references and route, and the service's Origin as headsign
      when the pattern runs inbound, its Destination otherwise. */
  predicate FromService(row: PatternRow, svc: Service) {
    && svc.serviceCode == Some(row.serviceCode)
    && row.agencyId == svc.operatorRef
    && row.lineName == svc.lineName
    && row.travelMode == Routes.Mode(svc.mode)
    && (row.directionId == 0 || row.directionId == 1)
    && row.tripHeadsign == (if row.directionId == 0 then svc.origin else svc.destination)
    && exists jp :: jp in svc.patterns && row.journeyPatternId == jp.id && row.sectionRef == jp.sectionRefs
         && row.routeId == jp.routeRef
  }

  lemma {:induction false} PatternStepRows(svc: Service, code: string, startDate: string, endDate: string,
                                           rows: seq<PatternRow>, jps: seq<JourneyPattern>)
    requires svc.serviceCode == Some(code)
    requires forall jp :: jp in jps ==> jp in svc.patterns
    requires Fold(PatternStep(svc, code, startDate, endDate), rows, jps).Ok?
    ensures var out := Fold(PatternStep(svc, code, startDate, endDate), rows, jps).value;
      && |out| == |rows| + |jps|
      && out[..|rows|] == rows
      && forall k :: |rows| <= k < |out| ==> FromService(out[k], svc)
    decreases |jps|
  {
    if |jps| > 0 {
      var init := jps[..|jps| - 1];
      var jp := jps[|jps| - 1];
      assert forall x :: x in init ==> x in jps;
      var step := PatternStep(svc, code, startDate, endDate);
      PatternStepRows(svc, code, startDate, endDate, rows, init);
      var mid := Fold(step, rows, init).value;
      var row := PatternRowOf(svc, code, startDate, endDate, jp).value;
      var out := mid + [row];
      assert Fold(step, rows, jps) == Ok(out);
      assert jp in svc.patterns;
      assert FromService(row, svc);
      assert out[..|rows|] == mid[..|rows|];
    }
  }

  lemma ServiceStepOne(rows: seq<PatternRow>, svc: Service)
    requires ServiceStep(rows, svc).Ok?
    ensures var out := ServiceStep(rows, svc).value;
      && |out| >= |rows|
      && out[..|rows|] == rows
      && forall k :: |rows| <= k < |out| ==> FromService(out[k], svc)
  {
    if svc.serviceCode.Some? {
      var code := svc.serviceCode.value;
      var start := ParseDate(svc.startDate, "-").value;
      var end := ParseDate(svc.endDate, "-").value;
      PatternStepRows(svc, code, CompactText(start), CompactText(end), rows, svc.patterns);
    }
  }

  lemma {:induction false} ServiceStepRows(rows: seq<PatternRow>, services: seq<Service>)
    requires Fold(ServiceStep, rows, services).Ok?
    ensures var out := Fold(ServiceStep, rows, services).value;
      && |out| >= |rows|
      && out[..|rows|] == rows
      && forall k :: |rows| <= k < |out| ==> exists i :: 0 <= i < |services| && FromService(out[k], services[i])
    decreases |services|
  {
    if |services| > 0 {
      var init := services[..|services| - 1];
      var svc := services[|services| - 1];
      ServiceStepRows(rows, init);
      var mid := Fold(ServiceStep, rows, init).value;
      var out := Fold(ServiceStep, rows, services).value;
      assert ServiceStep(mid, svc) == Ok(out);
      ServiceStepOne(mid, svc);
      forall k | |rows| <= k < |out|
        ensures exists i :: 0 <= i < |services| && FromService(out[k], services[i])
      {
        if k < |mid| {
          assert out[k] == mid[k];
          var i :| 0 <= i < |init| && FromService(mid[k], init[i]);
          assert services[i] == init[i];
        } else {
          assert FromService(out[k], services[|services| - 1]);
        }
      }
      assert out[..|rows|] == mid[..|rows|];
    }
  }

  /** Every row of the journey-pattern table comes from one of the coded
      services, with the headsign its direction calls for. */
  lemma PatternInfoRows(doc: Document)
    requires PatternInfoOf(doc).Ok?
    ensures var rows := PatternInfoOf(doc).value;
      forall k :: 0 <= k < |rows| ==> exists i :: 0 <= i < |doc.services| && FromService(rows[k], doc.services[i])
  {
    ServiceStepRows([], doc.services);
  }

  // ---------------------------------------------------------------------------
  // What a vehicle journey takes from its pattern

  /** The text of an operating profile: its element names joined with `|`. */
  function ProfileValue(profile: Option<seq<string>>): Option<string> {
    if profile.Some? then Some(Join(profile.value, "|")) else None
  }

  /** The journey's own value when it has one, the service's otherwise. */
  function Fallback(own: Option<string>, service: Option<string>): Option<string> {
    if own.Some? then own else service
  }

  function PatternId(row: PatternRow): string {
    row.journeyPatternId
  }

  function SectionRefOf(row: PatternRow): string {
    row.sectionRef
  }

  /** The section references of the pattern rows of one journey pattern. */
  function SectionRefsOf(rows: seq<PatternRow>, id: string): (refs: seq<string>)
    ensures forall ref :: ref in refs <==> exists x :: x in rows && x.journeyPatternId == id && x.sectionRef == ref
  {
    var matching := Filter(rows, (x: PatternRow) => x.journeyPatternId == id);
    var refs := KeysOf(matching, SectionRefOf);
    assert forall ref :: ref in refs ==> exists x :: x in matching && x.sectionRef == ref by {
      forall ref | ref in refs ensures exists x :: x in matching && x.sectionRef == ref {
        var i :| 0 <= i < |refs| && refs[i] == ref;
        assert matching[i] in matching;
      }
    }
    assert forall x :: x in matching ==> x.sectionRef in refs by {
      forall x | x in matching ensures x.sectionRef in refs {
        var i :| 0 <= i < |matching| && matching[i] == x;
        assert refs[i] == x.sectionRef;
      }
    }
    refs
  }

  /** The departure text split on `:` into exactly three integers; the seconds
      are read and then dropped. */
  function ParseDeparture(departure: string): (r: Result<(int, int)>)
    ensures r.Err? ==> r.error == ValueError
  {
    var parts := Split(departure, ":");
    if |parts| != 3 then Err(ValueError)
    else
      match (ParseInt(parts[0]), ParseInt(parts[1]), ParseInt(parts[2]))
      case (Some(h), Some(m), Some(_)) => Ok((h, m))
      case _ => Err(ValueError)
  }

  /** A zero-padded `HH:MM:SS` reads back as its hour and minute. */
  lemma DepartureRoundTrip(h: nat, m: nat, sec: nat)
    ensures ParseDeparture(Pad(h, 2) + ":" + Pad(m, 2) + ":" + Pad(sec, 2)) == Ok((h, m))
  {
    var a, b, c := Pad(h, 2), Pad(m, 2), Pad(sec, 2);
    ParseZFilled(h, 2);
    ParseZFilled(m, 2);
    ParseZFilled(sec, 2);
    DigitsNoColon(a);
    DigitsNoColon(b);
    DigitsNoColon(c);
    SplitThree(a, b, c);
  }

  lemma DigitsNoColon(s: string)
    requires AllDigits(s)
    ensures ':' !in s
  {
    assert forall i :: 0 <= i < |s| ==> IsDigit(s[i]);
  }

  /** Three colon-free texts joined by colons split back into the three. */
  lemma SplitThree(a: string, b: string, c: string)
    requires ':' !in a && ':' !in b && ':' !in c
    ensures Split(a + ":" + b + ":" + c, ":") == [a, b, c]
  {
    assert a + ":" + b + ":" + c == a + ":" + (b + ":" + c);
    SplitAtFirstChar(a, ":", b + ":" + c);
    SplitAtFirstChar(b, ":", c);
    SplitAbsentChar(c, ":");
  }

  /** What every row of one journey's trip shares. */
  datatype JourneyContext = JourneyContext(
    attrs: TripAttrs,
    nonOperativeDays: Option<string>,
    sectionRefs: seq<string>,
    hour: int,
    minute: int)

  /** The trip attributes come from the pattern row. */
  predicate TakesPatternRow(attrs: TripAttrs, row: PatternRow) {
    && attrs.agencyId == row.agencyId
    && attrs.routeId == row.routeId
    && attrs.directionId == row.directionId
    && attrs.lineName == row.lineName
    && row.travelMode == Some(attrs.travelMode)
    && attrs.tripHeadsign == row.tripHeadsign
    && attrs.vehicleType == row.vehicleType
    && attrs.startDate == row.startDate
    && attrs.endDate == row.endDate
  }

  /** The opening of the journey loop: weekdays and non-operation days fall
      back to the service's; the pattern columns come from the first row of
      the journey's pattern (a table without rows has no such column, a
      pattern without rows has no first row, a missing travel mode is no
      integer); the departure gives the hour and minute. */
  function JourneyContextOf(journey: VehicleJourney, patternRows: seq<PatternRow>,
                            serviceWeekdays: Option<string>, serviceNonOperative: Option<string>): (r: Result<JourneyContext>)
    ensures |patternRows| == 0 ==> r == Err(KeyError)
    ensures |patternRows| > 0 && !HasKey(patternRows, PatternId, journey.journeyPatternRef) ==> r == Err(IndexError)
    ensures r.Ok? ==> HasKey(patternRows, PatternId, journey.journeyPatternRef)
    ensures r.Ok? ==>
      TakesPatternRow(r.value.attrs, patternRows[FirstIndex(patternRows, PatternId, journey.journeyPatternRef)])
    ensures r.Ok? ==> r.value.attrs.vehicleJourneyId == journey.code && r.value.attrs.serviceRef == journey.serviceRef
    ensures r.Ok? ==> r.value.attrs.weekdays ==
                      if journey.daysOfWeek.Some? then Some(Join(journey.daysOfWeek.value, "|")) else serviceWeekdays
    ensures r.Ok? ==> r.value.nonOperativeDays ==
                      if journey.daysOfNonOperation.Some? then Some(Join(journey.daysOfNonOperation.value, "|"))
                      else serviceNonOperative
    ensures r.Ok? ==> ParseDeparture(journey.departureTime) == Ok((r.value.hour, r.value.minute))
    ensures r.Ok? ==> forall ref :: ref in r.value.sectionRefs <==>
      exists x :: x in patternRows && x.journeyPatternId == journey.journeyPatternRef && x.sectionRef == ref
  {
    var weekdays := Fallback(ProfileValue(journey.daysOfWeek), serviceWeekdays);
    var nonOperative := Fallback(ProfileValue(journey.daysOfNonOperation), serviceNonOperative);
    if |patternRows| == 0 then Err(KeyError)
    else if !HasKey(patternRows, PatternId, journey.journeyPatternRef) then Err(IndexError)
    else
      var first := patternRows[FirstIndex(patternRows, PatternId, journey.journeyPatternRef)];
      match first.travelMode
      case None => Err(TypeError)
      case Some(mode) =>
        match ParseDeparture(journey.departureTime)
        case Err(e) => Err(e)
        case Ok(hm) =>
          var attrs := TripAttrs(first.agencyId, first.routeId, journey.code, journey.serviceRef,
                                 first.directionId, first.lineName, mode, first.tripHeadsign,
                                 first.vehicleType, first.startDate, first.endDate, weekdays);
          Ok(JourneyContext(attrs, nonOperative, SectionRefsOf(patternRows, journey.journeyPatternRef), hm.0, hm.1))
  }

  /** `"%s" % weekdays`. */
  function WeekdaysText(weekdays: Option<string>): string {
    if weekdays.Some? then weekdays.value else "None"
  }

  /** The trip id of a section of a journey. */
  function TripId(sectionId: string, weekdays: Option<string>, hour: int, minute: int): string {
    sectionId + "_" + WeekdaysText(weekdays) + "_" + HourText(hour) + HourText(minute)
  }

  /** For a real time of day the trip id ends in four digits that read back
      as the departure's hour and minute, after the section id and weekdays. */
  lemma TripIdParts(sectionId: string, weekdays: Option<string>, hour: int, minute: int)
    requires 0 <= hour <= 23 && 0 <= minute <= 59
    ensures var id := TripId(sectionId, weekdays, hour, minute);
      && |id| >= 4
      && id[..|id| - 4] == sectionId + "_" + WeekdaysText(weekdays) + "_"
      && ParseInt(id[|id| - 4..|id| - 2]) == Some(hour)
      && ParseInt(id[|id| - 2..]) == Some(minute)
  {
    var hh, mm := HourText(hour), HourText(minute);
    NatToStringLength(hour, 2);
    NatToStringLength(minute, 2);
    ParseZFilled(hour, 2);
    ParseZFilled(minute, 2);
    var head := sectionId + "_" + WeekdaysText(weekdays) + "_";
    var id := TripId(sectionId, weekdays, hour, minute);
    assert id == head + hh + mm;
    assert |hh| == 2 && |mm| == 2;
    assert id[..|id| - 4] == head;
    assert id[|id| - 4..|id| - 2] == hh;
    assert id[|id| - 2..] == mm;
  }

  // ---------------------------------------------------------------------------
  // The walk over the timing links of a section

  /** The link loop's variables: the cursor `current_dt` (None before the
      journey's first link), `stop_num`, the rows of `section_times` and the
      last link's `duration`. */
  datatype LinkState = LinkState(cursor: Option<int>, stopNum: int, rows: seq<InfoRow>, duration: int)

  /** Where a link's From stop is reached and left, and its timepoint flag:
      the journey's first link starts the clock at the departure's hour and
      minute, which must be a time of day; every later link moves the
      cursor on by its own run time. */
  function Advance(hour: int, minute: int, cursor: Option<int>, duration: int): Result<(int, int, int)> {
    match cursor
    case None =>
      if 0 <= hour <= 23 && 0 <= minute <= 59 then
        var start := hour * HourInSeconds + minute * MinuteInSeconds;
        Ok((start, start, 1))
      else Err(ValueError)
    case Some(current) =>
      var arrival := current + duration;
      Ok((arrival, arrival + BoardingTime, 0))
  }

  /** The gtfs_info row of a link's From stop. */
  function LinkRow(ctx: JourneyContext, tripId: string, link: TimingLink, stopNum: int, timepoint: int,
                   arrival: int, departure: int): InfoRow
  {
    var texts := StampTexts(ctx.hour, arrival, departure);
    InfoRow(link.fromStop, stopNum, timepoint, texts.0, texts.1, link.routeLinkRef, tripId,
            ctx.attrs, ctx.nonOperativeDays, None)
  }

  /** One iteration of the link loop. */
  function NextLink(ctx: JourneyContext, tripId: string, s: LinkState, link: TimingLink): Result<LinkState> {
    match RuntimeSeconds(link.runTime)
    case Err(e) => Err(e)
    case Ok(duration) =>
      match Advance(ctx.hour, ctx.minute, s.cursor, duration)
      case Err(e) => Err(e)
      case Ok(a) =>
        Ok(LinkState(Some(a.0), s.stopNum + 1, s.rows + [LinkRow(ctx, tripId, link, s.stopNum, a.2, a.0, a.1)], duration))
  }

  /** As written, the run time carried over from the previous iteration
      never enters the step: only the link's own run time moves the cursor. */
  lemma NextLinkIgnoresDuration(ctx: JourneyContext, tripId: string, s: LinkState, link: TimingLink, d: int)
    ensures NextLink(ctx, tripId, s, link) == NextLink(ctx, tripId, s.(duration := d), link)
  {
  }

  function LinkStep(ctx: JourneyContext, tripId: string): (LinkState, TimingLink) -> Result<LinkState> {
    (s: LinkState, link: TimingLink) => NextLink(ctx, tripId, s, link)
  }

  /** The row of the section's closing stop: the last link's To stop, with
      that link's route link, timepoint 0 and no non-operation days. */
  function ClosingRow(ctx: JourneyContext, tripId: string, link: TimingLink, cursor: int, duration: int,
                      stopNum: int): InfoRow
  {
    var info := LastStopTimeInfo(link, ctx.hour, cursor, duration, stopNum, BoardingTime);
    InfoRow(info.stopId, info.stopSequence, 0, info.arrivalTime, info.departureTime, link.routeLinkRef,
            tripId, ctx.attrs, None, None)
  }

  /** After at least one link the clock has started. */
  lemma LinksStartClock(ctx: JourneyContext, tripId: string, s0: LinkState, links: seq<TimingLink>)
    requires |links| > 0 && Fold(LinkStep(ctx, tripId), s0, links).Ok?
    ensures Fold(LinkStep(ctx, tripId), s0, links).value.cursor.Some?
  {
  }

  // ---------------------------------------------------------------------------
  // The walk over the sections of a journey

  /** The section loop's variables: the cursor and `stop_num`, which carry
      over from section to section, and `section_times` (None while no
      section has been matched in this or any earlier journey). */
  datatype SectionState = SectionState(cursor: Option<int>, stopNum: int, sectionTimes: Option<seq<InfoRow>>)

  /** One iteration of the section loop: a section the pattern does not
      reference is skipped; a referenced one replaces `section_times` with its
      link rows and its closing row. A section without timing links has no
      JourneyPatternTimingLink to iterate. */
  function SectionRows(ctx: JourneyContext, s: SectionState, section: PatternSection): Result<SectionState> {
    var tripId := TripId(section.id, ctx.attrs.weekdays, ctx.hour, ctx.minute);
    if section.id !in ctx.sectionRefs then Ok(s)
    else if |section.links| == 0 then Err(AttributeError)
    else
      match Fold(LinkStep(ctx, tripId), LinkState(s.cursor, s.stopNum, [], 0), section.links)
      case Err(e) => Err(e)
      case Ok(ls) =>
        LinksStartClock(ctx, tripId, LinkState(s.cursor, s.stopNum, [], 0), section.links);
        var last := section.links[|section.links| - 1];
        var closing := ClosingRow(ctx, tripId, last, ls.cursor.value, ls.duration, ls.stopNum);
        Ok(SectionState(ls.cursor, ls.stopNum, Some(ls.rows + [closing])))
  }

  function SectionStep(ctx: JourneyContext): (SectionState, PatternSection) -> Result<SectionState> {
    (s: SectionState, section: PatternSection) => SectionRows(ctx, s, section)
  }

  // ---------------------------------------------------------------------------
  // The walk over the vehicle journeys

  /** The journey loop's variables: `section_times`, which is not reset
      between journeys, and the rows of `gtfs_info`. */
  datatype JourneyState = JourneyState(sectionTimes: Option<seq<InfoRow>>, gtfsInfo: seq<InfoRow>)

  /** One iteration of the journey loop: the cursor and `stop_num` restart,
      the sections are walked, and `section_times` is appended to the output;
      reading it before any section was ever matched is an error. */
  function NextJourney(patternRows: seq<PatternRow>, sections: seq<PatternSection>, serviceWeekdays: Option<string>,
                       serviceNonOperative: Option<string>, s: JourneyState, journey: VehicleJourney): Result<JourneyState>
  {
    match JourneyContextOf(journey, patternRows, serviceWeekdays, serviceNonOperative)
    case Err(e) => Err(e)
    case Ok(ctx) =>
      match Fold(SectionStep(ctx), SectionState(None, 1, s.sectionTimes), sections)
      case Err(e) => Err(e)
      case Ok(ss) =>
        match ss.sectionTimes
        case None => Err(UnboundLocalError)
        case Some(rows) => Ok(JourneyState(ss.sectionTimes, s.gtfsInfo + rows))
  }

  function JourneyStep(patternRows: seq<PatternRow>, sections: seq<PatternSection>, serviceWeekdays: Option<string>,
                       serviceNonOperative: Option<string>): (JourneyState, VehicleJourney) -> Result<JourneyState>
  {
    (s: JourneyState, journey: VehicleJourney) =>
      NextJourney(patternRows, sections, serviceWeekdays, serviceNonOperative, s, journey)
  }

  /** `process_vehicle_journeys`: the rows of every journey, then the service
      ids; an empty frame has no columns to group by. */
  function VehicleJourneysInfo(journeys: seq<VehicleJourney>, patternRows: seq<PatternRow>, sections: seq<PatternSection>,
                               serviceWeekdays: Option<string>, serviceNonOperative: Option<string>): (r: Result<seq<InfoRow>>)
    ensures |journeys| == 0 ==> r == Err(KeyError)
  {
    match Fold(JourneyStep(patternRows, sections, serviceWeekdays, serviceNonOperative), JourneyState(None, []), journeys)
    case Err(e) => Err(e)
    case Ok(js) =>
      if |js.gtfsInfo| == 0 then Err(KeyError) else Ok(StopTimes.WithServiceIds(js.gtfsInfo))
  }

  /** The service-level weekdays and non-operation days, read through
      `Services.Service`, which needs exactly one Service element. */
  function ServiceProfile(doc: Document, profile: Service -> Option<seq<string>>): Option<string> {
    if |doc.services| == 1 then ProfileValue(profile(doc.services[0])) else None
  }

  function DaysOfWeek(svc: Service): Option<seq<string>> {
    svc.daysOfWeek
  }

  function DaysOfNonOperation(svc: Service): Option<seq<string>> {
    svc.daysOfNonOperation
  }

  /** `get_gtfs_info`: the sections and journeys of the document (iterating
      them needs at least one of each), the pattern table and the service
      profiles, walked by `process_vehicle_journeys`. */
  function GtfsInfoOf(doc: Document): (r: Result<seq<InfoRow>>)
    ensures |doc.sections| == 0 || |doc.journeys| == 0 ==> r == Err(AttributeError)
    ensures |doc.sections| > 0 && |doc.journeys| > 0 && |doc.services| == 0 ==> r == Err(AttributeError)
  {
    if |doc.sections| == 0 || |doc.journeys| == 0 then Err(AttributeError)
    else
      match PatternInfoOf(doc)
      case Err(e) => Err(e)
      case Ok(rows) =>
        VehicleJourneysInfo(doc.journeys, rows, doc.sections, ServiceProfile(doc, DaysOfWeek),
                            ServiceProfile(doc, DaysOfNonOperation))
  }

  // ---------------------------------------------------------------------------
  // The loops

  /** The cursor update of the link loop: arrival, departure and timepoint. */
  method MoveCursor(hour: int, minute: int, currentDt: Option<int>, duration: int) returns (r: Result<(int, int, int)>)
    ensures r == Advance(hour, minute, currentDt, duration)
  {
    var arrival, departure, timepoint;
    if currentDt.None? {
      if !(0 <= hour <= 23 && 0 <= minute <= 59) {
        return Err(ValueError);
      }
      arrival := hour * HourInSeconds + minute * MinuteInSeconds;
      departure := arrival;
      timepoint := 1;
    } else {
      arrival := currentDt.value + duration;
      timepoint := 0;
      departure := arrival + BoardingTime;
    }
    r := Ok((arrival, departure, timepoint));
  }

  /** The body of the link loop: the run time, the cursor, the midnight
      formatting and the row of the link's From stop. */
  method LinkIteration(ctx: JourneyContext, tripId: string, currentDt: Option<int>, stopNum: int,
                       sectionTimes: seq<InfoRow>, link: TimingLink)
    returns (r: Result<LinkState>)
    ensures r == NextLink(ctx, tripId, LinkState(currentDt, stopNum, sectionTimes, 0), link)
  {
    var duration := ParseRuntimeDuration(link.runTime);
    if duration.Err? {
      return Err(duration.error);
    }
    var moved := MoveCursor(ctx.hour, ctx.minute, currentDt, duration.value);
    if moved.Err? {
      return Err(moved.error);
    }
    var (arrival, departure, timepoint) := moved.value;
    var info := StopRow(ctx, tripId, link, stopNum, timepoint, arrival, departure);
    NextLinkOk(ctx, tripId, LinkState(currentDt, stopNum, sectionTimes, 0), link, duration.value, moved.value);
    r := Ok(LinkState(Some(arrival), stopNum + 1, sectionTimes + [info], duration.value));
  }

  /** The loop body's formatting of a link's From stop: the hours past
      midnight for both times, then the row. */
  method StopRow(ctx: JourneyContext, tripId: string, link: TimingLink, stopNum: int, timepoint: int,
                 arrival: int, departure: int)
    returns (info: InfoRow)
    ensures info == LinkRow(ctx, tripId, link, stopNum, timepoint, arrival, departure)
  {
    var hours := MidnightFormattedTimes(HourOf(arrival), HourOf(departure), ctx.hour, arrival, departure);
    var arrivalText := ClockText(hours.0, arrival);
    var departureText := ClockText(hours.1, departure);
    info := InfoRow(link.fromStop, stopNum, timepoint, arrivalText, departureText, link.routeLinkRef, tripId,
                    ctx.attrs, ctx.nonOperativeDays, None);
  }

  /** The link loop of one section, from the loop variables `s0`. */
  method ProcessLinks(ctx: JourneyContext, tripId: string, s0: LinkState, links: seq<TimingLink>)
    returns (r: Result<LinkState>)
    ensures r == Fold(LinkStep(ctx, tripId), s0, links)
  {
    var currentDt, stopNum, sectionTimes, duration := s0.cursor, s0.stopNum, s0.rows, s0.duration;
    for k := 0 to |links|
      invariant Fold(LinkStep(ctx, tripId), s0, links[..k]) == Ok(LinkState(currentDt, stopNum, sectionTimes, duration))
    {
      ghost var before := LinkState(currentDt, stopNum, sectionTimes, duration);
      FoldNext(LinkStep(ctx, tripId), s0, links, k, before);
      assert LinkStep(ctx, tripId)(before, links[k]) == NextLink(ctx, tripId, before, links[k]);
      NextLinkIgnoresDuration(ctx, tripId, before, links[k], 0);
      var next := LinkIteration(ctx, tripId, currentDt, stopNum, sectionTimes, links[k]);
      if next.Err? {
        FoldErrSticks(LinkStep(ctx, tripId), s0, links, k + 1);
        return Err(next.error);
      }
      currentDt, stopNum, sectionTimes, duration := next.value.cursor, next.value.stopNum, next.value.rows, next.value.duration;
    }
    assert links[..|links|] == links;
    r := Ok(LinkState(currentDt, stopNum, sectionTimes, duration));
  }

  /** The section loop of one journey; `sectionTimes` is whatever the
      previous journey left in `section_times`. */
  method ProcessSections(ctx: JourneyContext, sections: seq<PatternSection>, sectionTimes: Option<seq<InfoRow>>)
    returns (r: Result<SectionState>)
    ensures r == Fold(SectionStep(ctx), SectionState(None, 1, sectionTimes), sections)
  {
    var s0 := SectionState(None, 1, sectionTimes);
    var currentDt, stopNum, times := None, 1, sectionTimes;
    for i := 0 to |sections|
      invariant Fold(SectionStep(ctx), s0, sections[..i]) == Ok(SectionState(currentDt, stopNum, times))
    {
      FoldStep(SectionStep(ctx), s0, sections, i);
      var section := sections[i];
      var tripId := TripId(section.id, ctx.attrs.weekdays, ctx.hour, ctx.minute);
      if section.id !in ctx.sectionRefs {
        continue;
      }
      var timingLinks := section.links;
      if |timingLinks| == 0 {
        FoldErrSticks(SectionStep(ctx), s0, sections, i + 1);
        return Err(AttributeError);
      }
      var ls := ProcessLinks(ctx, tripId, LinkState(currentDt, stopNum, [], 0), timingLinks);
      if ls.Err? {
        FoldErrSticks(SectionStep(ctx), s0, sections, i + 1);
        return Err(ls.error);
      }
      LinksStartClock(ctx, tripId, LinkState(currentDt, stopNum, [], 0), timingLinks);
      var link := timingLinks[|timingLinks| - 1];
      currentDt, stopNum := ls.value.cursor, ls.value.stopNum;
      var closing := ClosingRow(ctx, tripId, link, currentDt.value, ls.value.duration, stopNum);
      times := Some(ls.value.rows + [closing]);
    }
    assert sections[..|sections|] == sections;
    r := Ok(SectionState(currentDt, stopNum, times));
  }

  /** The opening of the journey loop, with the weekday and exception texts
      read from the journey's operating profile. */
  method JourneyContextFor(journey: VehicleJourney, serviceJpInfo: seq<PatternRow>,
                           serviceOperativeDays: Option<string>, serviceNonOperativeDays: Option<string>)
    returns (r: Result<JourneyContext>)
    ensures r == JourneyContextOf(journey, serviceJpInfo, serviceOperativeDays, serviceNonOperativeDays)
  {
    var weekdays := Calendar.WeekdayInfo(journey);
    if weekdays.None? {
      weekdays := serviceOperativeDays;
    }
    var nonOperativeDays := CalendarDates.CalendarDatesExceptions(journey);
    if nonOperativeDays.None? {
      nonOperativeDays := serviceNonOperativeDays;
    }
    if |serviceJpInfo| == 0 {
      return Err(KeyError);
    }
    if !HasKey(serviceJpInfo, PatternId, journey.journeyPatternRef) {
      return Err(IndexError);
    }
    var first := serviceJpInfo[FirstIndex(serviceJpInfo, PatternId, journey.journeyPatternRef)];
    if first.travelMode.None? {
      return Err(TypeError);
    }
    var departure := ParseDeparture(journey.departureTime);
    if departure.Err? {
      return Err(departure.error);
    }
    var attrs := TripAttrs(first.agencyId, first.routeId, journey.code, journey.serviceRef, first.directionId,
                           first.lineName, first.travelMode.value, first.tripHeadsign, first.vehicleType,
                           first.startDate, first.endDate, weekdays);
    r := Ok(JourneyContext(attrs, nonOperativeDays, SectionRefsOf(serviceJpInfo, journey.journeyPatternRef),
                           departure.value.0, departure.value.1));
  }

  /** The body of the journey loop: the journey's context, its section
      loop and the rows it appends to `gtfs_info`. */
  method JourneyIteration(journey: VehicleJourney, serviceJpInfo: seq<PatternRow>, sections: seq<PatternSection>,
                          serviceOperativeDays: Option<string>, serviceNonOperativeDays: Option<string>,
                          sectionTimes: Option<seq<InfoRow>>, gtfsInfo: seq<InfoRow>)
    returns (r: Result<JourneyState>)
    ensures r == NextJourney(serviceJpInfo, sections, serviceOperativeDays, serviceNonOperativeDays,
                             JourneyState(sectionTimes, gtfsInfo), journey)
  {
    var ctx := JourneyContextFor(journey, serviceJpInfo, serviceOperativeDays, serviceNonOperativeDays);
    if ctx.Err? {
      return Err(ctx.error);
    }
    var walked := ProcessSections(ctx.value, sections, sectionTimes);
    if walked.Err? {
      return Err(walked.error);
    }
    if walked.value.sectionTimes.None? {
      return Err(UnboundLocalError);
    }
    r := Ok(JourneyState(walked.value.sectionTimes, gtfsInfo + walked.value.sectionTimes.value));
  }

  /** `process_vehicle_journeys`. */
  method ProcessVehicleJourneys(vjourneys: seq<VehicleJourney>, serviceJpInfo: seq<PatternRow>,
                                sections: seq<PatternSection>, serviceOperativeDays: Option<string>,
                                serviceNonOperativeDays: Option<string>)
    returns (r: Result<seq<InfoRow>>)
    ensures r == VehicleJourneysInfo(vjourneys, serviceJpInfo, sections, serviceOperativeDays, serviceNonOperativeDays)
  {
    var step := JourneyStep(serviceJpInfo, sections, serviceOperativeDays, serviceNonOperativeDays);
    var gtfsInfo: seq<InfoRow> := [];
    var sectionTimes: Option<seq<InfoRow>> := None;
    for i := 0 to |vjourneys|
      invariant Fold(step, JourneyState(None, []), vjourneys[..i]) == Ok(JourneyState(sectionTimes, gtfsInfo))
    {
      FoldStep(step, JourneyState(None, []), vjourneys, i);
      ghost var before := JourneyState(sectionTimes, gtfsInfo);
      assert step(before, vjourneys[i]) ==
        NextJourney(serviceJpInfo, sections, serviceOperativeDays, serviceNonOperativeDays, before, vjourneys[i]);
      var next := JourneyIteration(vjourneys[i], serviceJpInfo, sections, serviceOperativeDays, serviceNonOperativeDays,
                                   sectionTimes, gtfsInfo);
      if next.Err? {
        FoldErrSticks(step, JourneyState(None, []), vjourneys, i + 1);
        return Err(next.error);
      }
      sectionTimes, gtfsInfo := next.value.sectionTimes, next.value.gtfsInfo;
    }
    assert vjourneys[..|vjourneys|] == vjourneys;
    if |gtfsInfo| == 0 {
      return Err(KeyError);
    }
    var frame := new InfoRow[|gtfsInfo|](k requires 0 <= k < |gtfsInfo| => gtfsInfo[k]);
    assert frame[..] == gtfsInfo;
    StopTimes.GenerateServiceId(frame);
    r := Ok(frame[..]);
  }

  /** `get_gtfs_info`. */
  method GetGtfsInfo(doc: Document) returns (r: Result<seq<InfoRow>>)
    ensures r == GtfsInfoOf(doc)
  {
    if |doc.sections| == 0 || |doc.journeys| == 0 {
      return Err(AttributeError);
    }
    var serviceJpInfo := ServiceJourneyPatternInfo(doc);
    if serviceJpInfo.Err? {
      return Err(serviceJpInfo.error);
    }
    var serviceOperativeDays := Calendar.ServiceOperativeDaysInfo(doc);
    var serviceNonOperativeDays := CalendarDates.ServiceCalendarDatesExceptions(doc);
    r := ProcessVehicleJourneys(doc.journeys, serviceJpInfo.value, doc.sections, serviceOperativeDays,
                                serviceNonOperativeDays);
  }

  // ---------------------------------------------------------------------------
  // Stop times of a section

  function Sum(ds: seq<int>): int
    decreases |ds|
  {
    if |ds| == 0 then 0 else Sum(ds[..|ds| - 1]) + ds[|ds| - 1]
  }

  /** The times at which, as written, the rows of a journey's first section
      are stamped, for a departure at t0 and link run times ds: the From
      stops at the intended times of the run times of links 1.., that is
      shifted by one link, and the closing stop at the last of those plus
      the last run time again. */
  function WrittenTimes(t0: int, ds: seq<int>): (ts: seq<int>)
    requires |ds| >= 1
    ensures |ts| == |ds| + 1 && ts[0] == t0
    ensures ts[|ds|] == ts[|ds| - 1] + ds[|ds| - 1]
  {
    var lagged := IntendedTimes(t0, ds[1..]);
    lagged + [lagged[|ds| - 1] + ds[|ds| - 1]]
  }

  /** Up to the last link, each From stop is reached the run time of its
      own link after the stop before it: the run time is counted one link
      late. */
  lemma WrittenTimesStep(t0: int, ds: seq<int>, j: int)
    requires 1 <= j < |ds|
    ensures WrittenTimes(t0, ds)[j] == WrittenTimes(t0, ds)[j - 1] + ds[j]
  {
    var lagged := IntendedTimes(t0, ds[1..]);
    IntendedTimesStep(t0, ds[1..], j - 1);
    assert ds[1..][j - 1] == ds[j];
    assert WrittenTimes(t0, ds)[j] == lagged[j] && WrittenTimes(t0, ds)[j - 1] == lagged[j - 1];
  }

  /** Closed form: the From stop of link k is stamped at t0 plus the run
      times of links 1..k, so link 0's run time is never counted. */
  lemma WrittenTimesSum(t0: int, ds: seq<int>, k: int)
    requires 0 <= k < |ds|
    ensures WrittenTimes(t0, ds)[k] == t0 + Sum(ds[1..k + 1])
  {
    IntendedTimesSum(t0, ds[1..], k);
    assert ds[1..][..k] == ds[1..k + 1];
  }

  /** The times a run time is the time from a link's From stop to its To
      stop calls for: stop i at t0 plus the run times of links 0..i-1. */
  function IntendedTimes(t0: int, ds: seq<int>): (ts: seq<int>)
    ensures |ts| == |ds| + 1 && ts[0] == t0
    decreases |ds|
  {
    if |ds| == 0 then [t0]
    else
      var init := IntendedTimes(t0, ds[..|ds| - 1]);
      init + [init[|ds| - 1] + ds[|ds| - 1]]
  }

  /** Each stop is reached the previous link's run time after the stop
      before it. */
  lemma {:induction false} IntendedTimesStep(t0: int, ds: seq<int>, i: int)
    requires 0 <= i < |ds|
    ensures IntendedTimes(t0, ds)[i + 1] == IntendedTimes(t0, ds)[i] + ds[i]
    decreases |ds|
  {
    var init := ds[..|ds| - 1];
    IntendedTimesSnoc(t0, ds);
    if i < |ds| - 1 {
      IntendedTimesStep(t0, init, i);
      assert init[i] == ds[i];
    }
  }

  /** Closed form: the stamp of link k is the departure plus the run times
      of links 0..k-1. */
  lemma {:induction false} IntendedTimesSum(t0: int, ds: seq<int>, k: int)
    requires 0 <= k <= |ds|
    ensures IntendedTimes(t0, ds)[k] == t0 + Sum(ds[..k])
    decreases k
  {
    if k > 0 {
      IntendedTimesSum(t0, ds, k - 1);
      IntendedTimesStep(t0, ds, k - 1);
      assert ds[..k][..k - 1] == ds[..k - 1];
    }
  }

  /** Two links of one and two minutes from 00:00: as written the stops are
      stamped 0, 120 and 240 seconds in (the first run time is lost, the last
      counted twice); intended are 0, 60 and 180. */
  lemma OneLinkLateFinding()
    ensures WrittenTimes(0, [60, 120]) == [0, 120, 240]
    ensures IntendedTimes(0, [60, 120]) == [0, 60, 180]
  {
    var w := WrittenTimes(0, [60, 120]);
    assert [60, 120][1..] == [120];
    IntendedTimesStep(0, [120], 0);
    assert w[1] == 120 && w[2] == 240;
    var t := IntendedTimes(0, [60, 120]);
    IntendedTimesStep(0, [60, 120], 0);
    IntendedTimesStep(0, [60, 120], 1);
    assert t[1] == 60 && t[2] == 180;
  }

  /** With run times that are not negative the stamps never go back. */
  lemma {:induction false} WrittenTimesNondecreasing(t0: int, ds: seq<int>, i: int, j: int)
    requires |ds| >= 1 && forall k :: 0 <= k < |ds| ==> ds[k] >= 0
    requires 0 <= i <= j <= |ds|
    ensures WrittenTimes(t0, ds)[i] <= WrittenTimes(t0, ds)[j]
    decreases j - i
  {
    if i < j {
      WrittenTimesNondecreasing(t0, ds, i, j - 1);
      if j < |ds| {
        WrittenTimesStep(t0, ds, j);
      }
    }
  }

  /** The departure's hour and minute, in seconds since midnight. */
  function StartTime(ctx: JourneyContext): int {
    ctx.hour * HourInSeconds + ctx.minute * MinuteInSeconds
  }

  /** The link loop of a journey's first matched section, from `stop_num`. */
  function FirstLinks(ctx: JourneyContext, tripId: string, stopNum: int, links: seq<TimingLink>): Result<LinkState> {
    Fold(LinkStep(ctx, tripId), LinkState(None, stopNum, [], 0), links)
  }

  /** One link step that ends well: the run time read as d and the clock
      moved to a = (arrival, departure, timepoint). */
  lemma NextLinkOk(ctx: JourneyContext, tripId: string, s: LinkState, link: TimingLink, d: int, a: (int, int, int))
    requires RuntimeSeconds(link.runTime) == Ok(d)
    requires Advance(ctx.hour, ctx.minute, s.cursor, d) == Ok(a)
    ensures NextLink(ctx, tripId, s, link) ==
      Ok(LinkState(Some(a.0), s.stopNum + 1, s.rows + [LinkRow(ctx, tripId, link, s.stopNum, a.2, a.0, a.1)], d))
  {
  }

  lemma NextLinkFirst(ctx: JourneyContext, tripId: string, s: LinkState, link: TimingLink, d: int)
    requires 0 <= ctx.hour <= 23 && 0 <= ctx.minute <= 59
    requires s.cursor.None? && RuntimeSeconds(link.runTime) == Ok(d)
    ensures NextLink(ctx, tripId, s, link) ==
      Ok(LinkState(Some(StartTime(ctx)), s.stopNum + 1,
                   s.rows + [LinkRow(ctx, tripId, link, s.stopNum, 1, StartTime(ctx), StartTime(ctx))], d))
  {
    var start := StartTime(ctx);
    var a := (start, start, 1);
    assert Advance(ctx.hour, ctx.minute, s.cursor, d) == Ok(a);
    assert LinkRow(ctx, tripId, link, s.stopNum, a.2, a.0, a.1) == LinkRow(ctx, tripId, link, s.stopNum, 1, start, start);
  }

  lemma NextLinkLater(ctx: JourneyContext, tripId: string, s: LinkState, link: TimingLink, d: int, t: int, row: InfoRow)
    requires s.cursor.Some? && RuntimeSeconds(link.runTime) == Ok(d)
    requires t == s.cursor.value + d
    requires row == LinkRow(ctx, tripId, link, s.stopNum, 0, t, t)
    ensures NextLink(ctx, tripId, s, link) == Ok(LinkState(Some(t), s.stopNum + 1, s.rows + [row], d))
  {
    var a := (t, t, 0);
    assert Advance(ctx.hour, ctx.minute, s.cursor, d) == Ok(a);
    assert LinkRow(ctx, tripId, link, s.stopNum, a.2, a.0, a.1) == row;
  }

  /** A link walk that ended well, with link k's row stamped at ts[k], the
      cursor at the last link's stamp and `duration` the last run time. */
  predicate StampedWalk(ctx: JourneyContext, tripId: string, stopNum: int, links: seq<TimingLink>, ts: seq<int>,
                        lastDuration: int, s: LinkState)
    requires 1 <= |links| <= |ts|
  {
    && s.cursor == Some(ts[|links| - 1])
    && s.duration == lastDuration
    && s.stopNum == stopNum + |links|
    && StampedRows(ctx, tripId, stopNum, links, ts, s.rows)
  }

  /** The rows of a walk stamped at ts[k]. */
  predicate StampedRows(ctx: JourneyContext, tripId: string, stopNum: int, links: seq<TimingLink>, ts: seq<int>,
                        rows: seq<InfoRow>)
    requires |links| <= |ts|
  {
    && |rows| == |links|
    && forall k :: 0 <= k < |links| ==> StampedRow(ctx, tripId, stopNum, links, ts, rows, k)
  }

  /** Row k of such a walk: link k's From stop, numbered stopNum + k,
      reached and left at ts[k], the timepoint flag on the first link only. */
  predicate StampedRow(ctx: JourneyContext, tripId: string, stopNum: int, links: seq<TimingLink>, ts: seq<int>,
                       rows: seq<InfoRow>, k: int)
  {
    && 0 <= k < |links| && k < |ts| && k < |rows|
    && rows[k] == LinkRow(ctx, tripId, links[k], stopNum + k, if k == 0 then 1 else 0, ts[k], ts[k])
  }

  lemma StampedRowsRetimed(ctx: JourneyContext, tripId: string, stopNum: int, links: seq<TimingLink>,
                           ts0: seq<int>, ts: seq<int>, rows: seq<InfoRow>)
    requires |links| <= |ts0| && |links| <= |ts|
    requires forall k :: 0 <= k < |links| ==> ts0[k] == ts[k]
    requires StampedRows(ctx, tripId, stopNum, links, ts0, rows)
    ensures StampedRows(ctx, tripId, stopNum, links, ts, rows)
  {
    forall k | 0 <= k < |links| ensures StampedRow(ctx, tripId, stopNum, links, ts, rows, k) {
      assert StampedRow(ctx, tripId, stopNum, links, ts0, rows, k);
    }
  }

  lemma StampedRowsSnoc(ctx: JourneyContext, tripId: string, stopNum: int, links: seq<TimingLink>, ts: seq<int>,
                        rows: seq<InfoRow>, row: InfoRow)
    requires 2 <= |links| <= |ts|
    requires StampedRows(ctx, tripId, stopNum, links[..|links| - 1], ts, rows)
    requires row == LinkRow(ctx, tripId, links[|links| - 1], stopNum + |links| - 1, 0, ts[|links| - 1], ts[|links| - 1])
    ensures StampedRows(ctx, tripId, stopNum, links, ts, rows + [row])
  {
    var n := |links|;
    var out := rows + [row];
    forall k | 0 <= k < n ensures StampedRow(ctx, tripId, stopNum, links, ts, out, k) {
      if k < n - 1 {
        assert StampedRow(ctx, tripId, stopNum, links[..n - 1], ts, rows, k);
        StampedRowKept(ctx, tripId, stopNum, links, ts, rows, row, k);
      } else {
        assert out[k] == row;
      }
    }
  }

  /** Appending a row leaves the earlier rows' stamps as they were. */
  lemma StampedRowKept(ctx: JourneyContext, tripId: string, stopNum: int, links: seq<TimingLink>, ts: seq<int>,
                       rows: seq<InfoRow>, row: InfoRow, k: int)
    requires 0 <= k < |links| - 1 && |rows| == |links| - 1
    requires StampedRow(ctx, tripId, stopNum, links[..|links| - 1], ts, rows, k)
    ensures StampedRow(ctx, tripId, stopNum, links, ts, rows + [row], k)
  {
    assert (rows + [row])[k] == rows[k] && links[k] == links[..|links| - 1][k];
  }

  /** A stamped walk followed by one more step: the earlier rows keep their
      stamps and the new row is the last link's. */
  lemma StampedWalkSnoc(ctx: JourneyContext, tripId: string, stopNum: int, links: seq<TimingLink>, d0: int,
                        ts0: seq<int>, ts: seq<int>, mid: LinkState, row: InfoRow, d: int)
    requires 2 <= |links| <= |ts| && |links| - 1 <= |ts0|
    requires forall k :: 0 <= k < |links| - 1 ==> ts0[k] == ts[k]
    requires StampedWalk(ctx, tripId, stopNum, links[..|links| - 1], ts0, d0, mid)
    requires row == LinkRow(ctx, tripId, links[|links| - 1], stopNum + |links| - 1, 0, ts[|links| - 1], ts[|links| - 1])
    ensures mid.cursor == Some(ts[|links| - 2]) && mid.duration == d0 && mid.stopNum == stopNum + |links| - 1
    ensures StampedWalk(ctx, tripId, stopNum, links, ts, d,
                        LinkState(Some(ts[|links| - 1]), mid.stopNum + 1, mid.rows + [row], d))
  {
    StampedRowsRetimed(ctx, tripId, stopNum, links[..|links| - 1], ts0, ts, mid.rows);
    StampedRowsSnoc(ctx, tripId, stopNum, links, ts, mid.rows, row);
  }

  /** The first link rows of a journey, as a closed form: the row of link k
      is stamped at the departure plus the run times of links 1..k, numbered
      from `stopNum`, with timepoint 1 on the first link only. */
  lemma {:induction false} LinksFromStart(ctx: JourneyContext, tripId: string, stopNum: int,
                                          links: seq<TimingLink>, ds: seq<int>)
    requires 0 <= ctx.hour <= 23 && 0 <= ctx.minute <= 59
    requires |links| >= 1 && |ds| == |links|
    requires forall k :: 0 <= k < |links| ==> RuntimeSeconds(links[k].runTime) == Ok(ds[k])
    ensures FirstLinks(ctx, tripId, stopNum, links).Ok?
    ensures StampedWalk(ctx, tripId, stopNum, links, WrittenTimes(StartTime(ctx), ds), ds[|ds| - 1],
                        FirstLinks(ctx, tripId, stopNum, links).value)
    decreases |links|
  {
    var n := |links|;
    var ts := WrittenTimes(StartTime(ctx), ds);
    if n == 1 {
      var step := LinkStep(ctx, tripId);
      var s0 := LinkState(None, stopNum, [], 0);
      assert Fold(step, s0, links[..0]) == Ok(s0);
      assert Fold(step, s0, links) == step(s0, links[0]);
      NextLinkFirst(ctx, tripId, s0, links[0], ds[0]);
    } else {
      LinksFromStart(ctx, tripId, stopNum, links[..n - 1], ds[..n - 1]);
      LinksFromStartStep(ctx, tripId, stopNum, links, ds);
    }
  }

  /** The inductive step of LinksFromStart: one more link. */
  lemma LinksFromStartStep(ctx: JourneyContext, tripId: string, stopNum: int, links: seq<TimingLink>, ds: seq<int>)
    requires |links| >= 2 && |ds| == |links|
    requires RuntimeSeconds(links[|links| - 1].runTime) == Ok(ds[|ds| - 1])
    requires FirstLinks(ctx, tripId, stopNum, links[..|links| - 1]).Ok?
    requires StampedWalk(ctx, tripId, stopNum, links[..|links| - 1], WrittenTimes(StartTime(ctx), ds[..|ds| - 1]),
                         ds[|ds| - 2], FirstLinks(ctx, tripId, stopNum, links[..|links| - 1]).value)
    ensures FirstLinks(ctx, tripId, stopNum, links).Ok?
    ensures StampedWalk(ctx, tripId, stopNum, links, WrittenTimes(StartTime(ctx), ds), ds[|ds| - 1],
                        FirstLinks(ctx, tripId, stopNum, links).value)
  {
    var n := |links|;
    var ts := WrittenTimes(StartTime(ctx), ds);
    var ts0 := WrittenTimes(StartTime(ctx), ds[..n - 1]);
    WrittenPrefixes(StartTime(ctx), ds);
    var mid := FirstLinks(ctx, tripId, stopNum, links[..n - 1]).value;
    var row := LinkRow(ctx, tripId, links[n - 1], stopNum + n - 1, 0, ts[n - 1], ts[n - 1]);
    StampedWalkSnoc(ctx, tripId, stopNum, links, ds[n - 2], ts0, ts, mid, row, ds[n - 1]);
    WrittenTimesStep(StartTime(ctx), ds, n - 1);
    FoldLast(ctx, tripId, stopNum, links);
    NextLinkLater(ctx, tripId, mid, links[n - 1], ds[n - 1], ts[n - 1], row);
  }

  lemma FoldLast(ctx: JourneyContext, tripId: string, stopNum: int, links: seq<TimingLink>)
    requires |links| >= 2 && FirstLinks(ctx, tripId, stopNum, links[..|links| - 1]).Ok?
    ensures FirstLinks(ctx, tripId, stopNum, links) ==
      NextLink(ctx, tripId, FirstLinks(ctx, tripId, stopNum, links[..|links| - 1]).value, links[|links| - 1])
  {
  }

  /** The link stamps of a prefix of the links are those of the whole. */
  lemma WrittenPrefixes(t0: int, ds: seq<int>)
    requires |ds| >= 2
    ensures forall k :: 0 <= k < |ds| - 1 ==> WrittenTimes(t0, ds[..|ds| - 1])[k] == WrittenTimes(t0, ds)[k]
  {
    var e := ds[1..];
    IntendedTimesSnoc(t0, e);
    assert e[..|e| - 1] == ds[..|ds| - 1][1..];
  }

  /** The link step as intended: a link's From stop is reached the previous
      link's run time after the previous From stop, so the cursor moves by
      the duration carried over from the last iteration. */
  function IntendedNextLink(ctx: JourneyContext, tripId: string, s: LinkState, link: TimingLink): Result<LinkState> {
    match RuntimeSeconds(link.runTime)
    case Err(e) => Err(e)
    case Ok(duration) =>
      match Advance(ctx.hour, ctx.minute, s.cursor, s.duration)
      case Err(e) => Err(e)
      case Ok(a) =>
        Ok(LinkState(Some(a.0), s.stopNum + 1, s.rows + [LinkRow(ctx, tripId, link, s.stopNum, a.2, a.0, a.1)], duration))
  }

  function IntendedLinkStep(ctx: JourneyContext, tripId: string): (LinkState, TimingLink) -> Result<LinkState> {
    (s: LinkState, link: TimingLink) => IntendedNextLink(ctx, tripId, s, link)
  }

  function IntendedFirstLinks(ctx: JourneyContext, tripId: string, stopNum: int, links: seq<TimingLink>): Result<LinkState> {
    Fold(IntendedLinkStep(ctx, tripId), LinkState(None, stopNum, [], 0), links)
  }

  lemma IntendedNextLinkLater(ctx: JourneyContext, tripId: string, s: LinkState, link: TimingLink, d: int, t: int,
                              row: InfoRow)
    requires s.cursor.Some? && RuntimeSeconds(link.runTime) == Ok(d)
    requires t == s.cursor.value + s.duration
    requires row == LinkRow(ctx, tripId, link, s.stopNum, 0, t, t)
    ensures IntendedNextLink(ctx, tripId, s, link) == Ok(LinkState(Some(t), s.stopNum + 1, s.rows + [row], d))
  {
    var a := (t, t, 0);
    assert Advance(ctx.hour, ctx.minute, s.cursor, s.duration) == Ok(a);
    assert LinkRow(ctx, tripId, link, s.stopNum, a.2, a.0, a.1) == row;
  }

  lemma IntendedNextLinkFirst(ctx: JourneyContext, tripId: string, s: LinkState, link: TimingLink, d: int)
    requires 0 <= ctx.hour <= 23 && 0 <= ctx.minute <= 59
    requires s.cursor.None? && RuntimeSeconds(link.runTime) == Ok(d)
    ensures IntendedNextLink(ctx, tripId, s, link) ==
      Ok(LinkState(Some(StartTime(ctx)), s.stopNum + 1,
                   s.rows + [LinkRow(ctx, tripId, link, s.stopNum, 1, StartTime(ctx), StartTime(ctx))], d))
  {
    var a := (StartTime(ctx), StartTime(ctx), 1);
    assert Advance(ctx.hour, ctx.minute, s.cursor, s.duration) == Ok(a);
  }

  lemma IntendedFoldLast(ctx: JourneyContext, tripId: string, stopNum: int, links: seq<TimingLink>)
    requires |links| >= 2 && IntendedFirstLinks(ctx, tripId, stopNum, links[..|links| - 1]).Ok?
    ensures IntendedFirstLinks(ctx, tripId, stopNum, links) ==
      IntendedNextLink(ctx, tripId, IntendedFirstLinks(ctx, tripId, stopNum, links[..|links| - 1]).value, links[|links| - 1])
  {
  }

  /** The stamps of a walk one link longer extend those of the shorter. */
  lemma IntendedTimesSnoc(t0: int, ds: seq<int>)
    requires |ds| >= 1
    ensures IntendedTimes(t0, ds) ==
      IntendedTimes(t0, ds[..|ds| - 1]) + [IntendedTimes(t0, ds[..|ds| - 1])[|ds| - 1] + ds[|ds| - 1]]
  {
    var init := ds[..|ds| - 1];
    var ts := IntendedTimes(t0, init);
    assert IntendedTimes(t0, ds) == ts + [ts[|ds| - 1] + ds[|ds| - 1]];
  }


  /** With the intended step, the row of link k is stamped at the departure
      plus the run times of links 0..k-1. */
  lemma {:induction false} IntendedLinksFromStart(ctx: JourneyContext, tripId: string, stopNum: int,
                                                  links: seq<TimingLink>, ds: seq<int>)
    requires 0 <= ctx.hour <= 23 && 0 <= ctx.minute <= 59
    requires |links| >= 1 && |ds| == |links|
    requires forall k :: 0 <= k < |links| ==> RuntimeSeconds(links[k].runTime) == Ok(ds[k])
    ensures IntendedFirstLinks(ctx, tripId, stopNum, links).Ok?
    ensures StampedWalk(ctx, tripId, stopNum, links, IntendedTimes(StartTime(ctx), ds), ds[|ds| - 1],
                        IntendedFirstLinks(ctx, tripId, stopNum, links).value)
    decreases |links|
  {
    var n := |links|;
    var ts := IntendedTimes(StartTime(ctx), ds);
    if n == 1 {
      var step := IntendedLinkStep(ctx, tripId);
      var s0 := LinkState(None, stopNum, [], 0);
      assert Fold(step, s0, links[..0]) == Ok(s0);
      assert Fold(step, s0, links) == step(s0, links[0]);
      IntendedNextLinkFirst(ctx, tripId, s0, links[0], ds[0]);
      assert ts[0] == StartTime(ctx);
    } else {
      var init, dinit := links[..n - 1], ds[..n - 1];
      IntendedLinksFromStart(ctx, tripId, stopNum, init, dinit);
      var ts0 := IntendedTimes(StartTime(ctx), dinit);
      var mid := IntendedFirstLinks(ctx, tripId, stopNum, init).value;
      IntendedTimesSnoc(StartTime(ctx), ds);
      var row := LinkRow(ctx, tripId, links[n - 1], stopNum + n - 1, 0, ts[n - 1], ts[n - 1]);
      StampedWalkSnoc(ctx, tripId, stopNum, links, ds[n - 2], ts0, ts, mid, row, ds[n - 1]);
      IntendedTimesStep(StartTime(ctx), ds, n - 2);
      IntendedFoldLast(ctx, tripId, stopNum, links);
      IntendedNextLinkLater(ctx, tripId, mid, links[n - 1], ds[n - 1], ts[n - 1], row);
    }
  }

  /** With the intended step the closing stop is reached at the departure
      plus the run times of all the links. */
  lemma IntendedClosingTime(ctx: JourneyContext, tripId: string, stopNum: int, links: seq<TimingLink>, ds: seq<int>)
    requires 0 <= ctx.hour <= 23 && 0 <= ctx.minute <= 59
    requires |links| >= 1 && |ds| == |links|
    requires forall k :: 0 <= k < |links| ==> RuntimeSeconds(links[k].runTime) == Ok(ds[k])
    ensures IntendedFirstLinks(ctx, tripId, stopNum, links).Ok?
    ensures var ls := IntendedFirstLinks(ctx, tripId, stopNum, links).value;
      ls.cursor.Some? && ls.cursor.value + ls.duration == IntendedTimes(StartTime(ctx), ds)[|ds|]
  {
    IntendedLinksFromStart(ctx, tripId, stopNum, links, ds);
    IntendedTimesStep(StartTime(ctx), ds, |ds| - 1);
  }

  /** A link row stamped at t both ways shows t's clock time and carries the
      link's From stop, the stop number, the flag and the trip. */
  lemma LinkRowStamp(ctx: JourneyContext, tripId: string, link: TimingLink, stopNum: int, timepoint: int, t: int)
    ensures LinkRow(ctx, tripId, link, stopNum, timepoint, t, t).arrivalTime == ClockText(DisplayHour(ctx.hour, t), t)
    ensures LinkRow(ctx, tripId, link, stopNum, timepoint, t, t).departureTime == ClockText(DisplayHour(ctx.hour, t), t)
    ensures LinkRow(ctx, tripId, link, stopNum, timepoint, t, t).stopId == link.fromStop
    ensures LinkRow(ctx, tripId, link, stopNum, timepoint, t, t).stopSequence == stopNum
    ensures LinkRow(ctx, tripId, link, stopNum, timepoint, t, t).timepoint == timepoint
    ensures LinkRow(ctx, tripId, link, stopNum, timepoint, t, t).tripId == tripId
    ensures LinkRow(ctx, tripId, link, stopNum, timepoint, t, t).nonOperativeDays == ctx.nonOperativeDays
  {
  }

  /** The section loop's step on the journey's first matched section. */
  function FirstSection(ctx: JourneyContext, prior: Option<seq<InfoRow>>, section: PatternSection): Result<SectionState> {
    SectionRows(ctx, SectionState(None, 1, prior), section)
  }

  /** Row k of a journey's first matched section, as written: numbered
      k + 1, of the section's trip, reached and left at the written stamp of
      its position, timepoint 1 on the first stop only; the stops are the
      links' From stops and then the last link's To stop, which has no
      non-operation days. */
  predicate WrittenRow(ctx: JourneyContext, section: PatternSection, ds: seq<int>, k: int, row: InfoRow)
    requires |ds| >= 1 && |section.links| == |ds| && 0 <= k <= |ds|
  {
    var t := WrittenTimes(StartTime(ctx), ds)[k];
    && row.stopSequence == k + 1
    && row.tripId == TripId(section.id, ctx.attrs.weekdays, ctx.hour, ctx.minute)
    && row.arrivalTime == ClockText(DisplayHour(ctx.hour, t), t)
    && row.departureTime == row.arrivalTime
    && row.stopId == (if k < |ds| then section.links[k].fromStop else section.links[|ds| - 1].toStop)
    && row.timepoint == (if k == 0 then 1 else 0)
    && row.nonOperativeDays == (if k < |ds| then ctx.nonOperativeDays else None)
  }

  /** The first matched section's state: the link loop's, plus its closing row. */
  /** The section loop's state after a link walk `ls` over the section,
      closed by the last link's To stop. */
  function ClosedWalk(ctx: JourneyContext, section: PatternSection, ls: LinkState): SectionState
    requires |section.links| >= 1 && ls.cursor.Some?
  {
    var tripId := TripId(section.id, ctx.attrs.weekdays, ctx.hour, ctx.minute);
    var closing := ClosingRow(ctx, tripId, section.links[|section.links| - 1], ls.cursor.value, ls.duration, ls.stopNum);
    SectionState(ls.cursor, ls.stopNum, Some(ls.rows + [closing]))
  }

  /** The section step on a journey's first matched section walks its links
      from stop 1 with the clock not yet started and closes the walk. */
  lemma FirstSectionShape(ctx: JourneyContext, prior: Option<seq<InfoRow>>, section: PatternSection)
    requires section.id in ctx.sectionRefs && |section.links| >= 1
    requires FirstLinks(ctx, TripId(section.id, ctx.attrs.weekdays, ctx.hour, ctx.minute), 1, section.links).Ok?
    ensures var ls := FirstLinks(ctx, TripId(section.id, ctx.attrs.weekdays, ctx.hour, ctx.minute), 1, section.links).value;
      ls.cursor.Some? && FirstSection(ctx, prior, section) == Ok(ClosedWalk(ctx, section, ls))
  {
    var tripId := TripId(section.id, ctx.attrs.weekdays, ctx.hour, ctx.minute);
    LinksStartClock(ctx, tripId, LinkState(None, 1, [], 0), section.links);
  }

  /** The link walk of a journey's first matched section ends well, and
      closing it leaves one row per link and one for the closing stop, each
      as `WrittenRow` describes; `FirstSectionShape` says the section step
      leaves exactly this closed walk. */
  lemma {:induction false} FirstSectionRows(ctx: JourneyContext, section: PatternSection, ds: seq<int>)
    requires 0 <= ctx.hour <= 23 && 0 <= ctx.minute <= 59
    requires |section.links| >= 1 && |ds| == |section.links|
    requires forall k :: 0 <= k < |ds| ==> RuntimeSeconds(section.links[k].runTime) == Ok(ds[k])
    ensures var r := FirstLinks(ctx, TripId(section.id, ctx.attrs.weekdays, ctx.hour, ctx.minute), 1, section.links);
      && r.Ok? && r.value.cursor.Some?
      && WrittenSection(ctx, section, ds, ClosedWalk(ctx, section, r.value))
  {
    var tripId := TripId(section.id, ctx.attrs.weekdays, ctx.hour, ctx.minute);
    LinksFromStart(ctx, tripId, 1, section.links, ds);
    var ls := FirstLinks(ctx, tripId, 1, section.links).value;
    WalkRowsWritten(ctx, section, ds, ls);
  }

  /** The state the section loop leaves after a journey's first matched
      section, as written: the cursor at the last link's stamp, the next
      stop number after the closing stop, and one written row per stop. */
  predicate WrittenSection(ctx: JourneyContext, section: PatternSection, ds: seq<int>, st: SectionState)
    requires |ds| >= 1 && |section.links| == |ds|
  {
    && st.cursor == Some(WrittenTimes(StartTime(ctx), ds)[|ds| - 1])
    && st.stopNum == |ds| + 1
    && st.sectionTimes.Some?
    && |st.sectionTimes.value| == |ds| + 1
    && forall k :: 0 <= k <= |ds| ==> WrittenRow(ctx, section, ds, k, st.sectionTimes.value[k])
  }

  /** The rows of a link walk stamped at the written times, closed by the
      last link's To stop, are the written rows. */
  lemma WalkRowsWritten(ctx: JourneyContext, section: PatternSection, ds: seq<int>, ls: LinkState)
    requires |section.links| >= 1 && |ds| == |section.links|
    requires StampedWalk(ctx, TripId(section.id, ctx.attrs.weekdays, ctx.hour, ctx.minute), 1, section.links,
                         WrittenTimes(StartTime(ctx), ds), ds[|ds| - 1], ls)
    ensures ls.cursor.Some? && WrittenSection(ctx, section, ds, ClosedWalk(ctx, section, ls))
  {
    var n := |ds|;
    var tripId := TripId(section.id, ctx.attrs.weekdays, ctx.hour, ctx.minute);
    var closing := ClosingRow(ctx, tripId, section.links[n - 1], ls.cursor.value, ls.duration, ls.stopNum);
    var rows := ls.rows + [closing];
    forall k | 0 <= k <= n ensures WrittenRow(ctx, section, ds, k, rows[k]) {
      if k < n {
        assert StampedRow(ctx, tripId, 1, section.links, WrittenTimes(StartTime(ctx), ds), ls.rows, k);
        assert rows[k] == ls.rows[k];
        LinkRowWritten(ctx, section, ds, k);
      } else {
        assert rows[k] == closing;
        ClosingRowWritten(ctx, section, ds);
      }
    }
    assert ClosedWalk(ctx, section, ls) == SectionState(ls.cursor, ls.stopNum, Some(rows));
  }

  lemma LinkRowWritten(ctx: JourneyContext, section: PatternSection, ds: seq<int>, k: int)
    requires |ds| >= 1 && |section.links| == |ds| && 0 <= k < |ds|
    ensures var t := WrittenTimes(StartTime(ctx), ds)[k];
      var tripId := TripId(section.id, ctx.attrs.weekdays, ctx.hour, ctx.minute);
      WrittenRow(ctx, section, ds, k, LinkRow(ctx, tripId, section.links[k], 1 + k, if k == 0 then 1 else 0, t, t))
  {
    var t := WrittenTimes(StartTime(ctx), ds)[k];
    var tripId := TripId(section.id, ctx.attrs.weekdays, ctx.hour, ctx.minute);
    LinkRowStamp(ctx, tripId, section.links[k], 1 + k, if k == 0 then 1 else 0, t);
  }

  /** The closing row, reached at t = cursor + duration and left then. */
  lemma ClosingRowAt(ctx: JourneyContext, tripId: string, link: TimingLink, cursor: int, duration: int, stopNum: int, t: int)
    requires t == cursor + duration
    ensures ClosingRow(ctx, tripId, link, cursor, duration, stopNum).arrivalTime == ClockText(DisplayHour(ctx.hour, t), t)
    ensures ClosingRow(ctx, tripId, link, cursor, duration, stopNum).departureTime == ClockText(DisplayHour(ctx.hour, t), t)
    ensures ClosingRow(ctx, tripId, link, cursor, duration, stopNum).stopId == link.toStop
    ensures ClosingRow(ctx, tripId, link, cursor, duration, stopNum).stopSequence == stopNum
    ensures ClosingRow(ctx, tripId, link, cursor, duration, stopNum).timepoint == 0
    ensures ClosingRow(ctx, tripId, link, cursor, duration, stopNum).tripId == tripId
    ensures ClosingRow(ctx, tripId, link, cursor, duration, stopNum).nonOperativeDays.None?
  {
    ClosingStopTimes(link, ctx.hour, cursor, duration, stopNum);
  }

  lemma ClosingRowWritten(ctx: JourneyContext, section: PatternSection, ds: seq<int>)
    requires |ds| >= 1 && |section.links| == |ds|
    ensures var n := |ds|;
      var ts := WrittenTimes(StartTime(ctx), ds);
      var tripId := TripId(section.id, ctx.attrs.weekdays, ctx.hour, ctx.minute);
      WrittenRow(ctx, section, ds, n, ClosingRow(ctx, tripId, section.links[n - 1], ts[n - 1], ds[n - 1], n + 1))
  {
    var n := |ds|;
    var ts := WrittenTimes(StartTime(ctx), ds);
    var tripId := TripId(section.id, ctx.attrs.weekdays, ctx.hour, ctx.minute);
    ClosingRowAt(ctx, tripId, section.links[n - 1], ts[n - 1], ds[n - 1], n + 1, ts[n]);
  }

  /** The first stop of a journey shows its departure time, HH:MM:00. */
  lemma FirstStopClock(ctx: JourneyContext)
    requires 0 <= ctx.hour <= 23 && 0 <= ctx.minute <= 59
    ensures ClockText(DisplayHour(ctx.hour, StartTime(ctx)), StartTime(ctx)) == HourText(ctx.hour) + ":" + Pad(ctx.minute, 2) + ":00"
  {
    var t := StartTime(ctx);
    DivModUnique(t, SecondsPerDay, 0, t);
    DivModUnique(t, HourInSeconds, ctx.hour, ctx.minute * MinuteInSeconds);
    DivModUnique(t % HourInSeconds, MinuteInSeconds, ctx.minute, 0);
    DivModUnique(t, MinuteInSeconds, 60 * ctx.hour + ctx.minute, 0);
    SameDayHour(ctx.hour, t);
    assert Pad(0, 2) == "00" by { PaddedExamples(); }
  }

  // ---------------------------------------------------------------------------
  // Which section's rows a journey keeps

  predicate Unmatched(ctx: JourneyContext, sections: seq<PatternSection>) {
    forall k :: 0 <= k < |sections| ==> sections[k].id !in ctx.sectionRefs
  }

  /** Sections the journey's pattern does not reference change nothing. */
  lemma {:induction false} SkipUnmatched(ctx: JourneyContext, s: SectionState, sections: seq<PatternSection>)
    requires Unmatched(ctx, sections)
    ensures Fold(SectionStep(ctx), s, sections) == Ok(s)
    decreases |sections|
  {
    if |sections| > 0 {
      var init := sections[..|sections| - 1];
      assert Unmatched(ctx, init) by {
        forall k | 0 <= k < |init| ensures init[k].id !in ctx.sectionRefs {
          assert init[k] == sections[k];
        }
      }
      SkipUnmatched(ctx, s, init);
      assert Fold(SectionStep(ctx), s, sections) == SectionStep(ctx)(s, sections[|sections| - 1]);
    }
  }

  /** When the pattern references one section only, the journey's section
      loop leaves exactly that section's rows in `section_times`. */
  lemma SingleMatchedSection(ctx: JourneyContext, prior: Option<seq<InfoRow>>,
                             before: seq<PatternSection>, section: PatternSection, after: seq<PatternSection>)
    requires Unmatched(ctx, before) && Unmatched(ctx, after)
    ensures Fold(SectionStep(ctx), SectionState(None, 1, prior), before + [section] + after) ==
      FirstSection(ctx, prior, section)
  {
    var step := SectionStep(ctx);
    var s0 := SectionState(None, 1, prior);
    SkipUnmatched(ctx, s0, before);
    FoldAppend(step, s0, before, [section] + after);
    assert before + [section] + after == before + ([section] + after);
    FoldAppend(step, s0, [section], after);
    assert [section][..0] == [];
    assert Fold(step, s0, [section]) == step(s0, section);
    match FirstSection(ctx, prior, section)
    case Err(e) =>
    case Ok(s1) =>
      SkipUnmatched(ctx, s1, after);
  }

  /** With several referenced sections, each replaces `section_times`: the
      rows kept are those of the last referenced one. */
  lemma LastMatchedSectionWins(ctx: JourneyContext, s0: SectionState,
                               before: seq<PatternSection>, section: PatternSection, after: seq<PatternSection>)
    requires section.id in ctx.sectionRefs && |section.links| > 0 && Unmatched(ctx, after)
    requires Fold(SectionStep(ctx), s0, before + [section] + after).Ok?
    ensures Fold(SectionStep(ctx), s0, before).Ok?
    ensures var r := Fold(SectionStep(ctx), s0, before + [section] + after).value;
      var s1 := SectionRows(ctx, Fold(SectionStep(ctx), s0, before).value, section);
      s1.Ok? && r == s1.value && r.sectionTimes.Some?
  {
    var step := SectionStep(ctx);
    assert before + [section] + after == (before + [section]) + after;
    FoldAppend(step, s0, before + [section], after);
    FoldAppend(step, s0, before, [section]);
    var sb := Fold(step, s0, before);
    if sb.Err? {
      assert false;
    }
    assert [section][..0] == [];
    assert Fold(step, sb.value, [section]) == step(sb.value, section);
    var s1 := SectionRows(ctx, sb.value, section);
    if s1.Err? {
      assert false;
    }
    SkipUnmatched(ctx, s1.value, after);
  }

  /** A link walk appends one row per link and keeps the rows it has: the
      first row it adds is the one its first step adds. */
  lemma {:induction false} LinkWalkGrows(ctx: JourneyContext, tripId: string, s0: LinkState, links: seq<TimingLink>)
    requires Fold(LinkStep(ctx, tripId), s0, links).Ok?
    ensures var s := Fold(LinkStep(ctx, tripId), s0, links).value;
      && s.stopNum == s0.stopNum + |links|
      && |s.rows| == |s0.rows| + |links|
      && (|links| > 0 ==>
            && Fold(LinkStep(ctx, tripId), s0, links[..1]).Ok?
            && s.rows[..|s0.rows| + 1] == Fold(LinkStep(ctx, tripId), s0, links[..1]).value.rows)
    decreases |links|
  {
    var n := |links|;
    if n > 1 {
      var init := links[..n - 1];
      LinkWalkGrows(ctx, tripId, s0, init);
      assert init[..1] == links[..1];
      var prev := Fold(LinkStep(ctx, tripId), s0, init).value;
      var s := Fold(LinkStep(ctx, tripId), s0, links).value;
      assert s.rows[..|s0.rows| + 1] == prev.rows[..|s0.rows| + 1];
    } else if n == 1 {
      assert links[..1] == links;
    }
  }

  /** One link step from an empty walk with the clock running. */
  lemma NextLinkFromEmpty(ctx: JourneyContext, tripId: string, cursor: Option<int>, stopNum: int, link: TimingLink,
                          d: int, row: InfoRow)
    requires cursor.Some? && RuntimeSeconds(link.runTime) == Ok(d)
    requires row == LinkRow(ctx, tripId, link, stopNum, 0, cursor.value + d, cursor.value + d)
    ensures NextLink(ctx, tripId, LinkState(cursor, stopNum, [], 0), link) ==
      Ok(LinkState(Some(cursor.value + d), stopNum + 1, [row], d))
  {
    var a := (cursor.value + d, cursor.value + d, 0);
    assert Advance(ctx.hour, ctx.minute, cursor, d) == Ok(a);
    assert LinkRow(ctx, tripId, link, stopNum, a.2, a.0, a.1) == row;
    assert [] + [row] == [row];
  }

  /** The first step of a walk that starts with the clock running and no rows. */
  lemma LaterFirstStep(ctx: JourneyContext, tripId: string, cursor: Option<int>, stopNum: int, links: seq<TimingLink>,
                       d: int, row: InfoRow)
    requires cursor.Some? && |links| > 0
    requires RuntimeSeconds(links[0].runTime) == Ok(d)
    requires row == LinkRow(ctx, tripId, links[0], stopNum, 0, cursor.value + d, cursor.value + d)
    ensures Fold(LinkStep(ctx, tripId), LinkState(cursor, stopNum, [], 0), links[..1]) ==
      Ok(LinkState(Some(cursor.value + d), stopNum + 1, [row], d))
  {
    var step := LinkStep(ctx, tripId);
    var l0 := LinkState(cursor, stopNum, [], 0);
    var one := links[..1];
    assert one[..0] == [];
    assert Fold(step, l0, one[..0]) == Ok(l0);
    assert Fold(step, l0, one) == step(l0, one[0]);
    assert one[0] == links[0] && step(l0, links[0]) == NextLink(ctx, tripId, l0, links[0]);
    NextLinkFromEmpty(ctx, tripId, cursor, stopNum, links[0], d, row);
  }

  /** A link walk that starts with the clock running and no rows: its first
      row is the first link's From stop, without the timepoint flag, reached
      and left at the cursor moved on by that link's run time. */
  lemma LaterWalkFirstRow(ctx: JourneyContext, tripId: string, cursor: Option<int>, stopNum: int,
                          links: seq<TimingLink>, d: int, row: InfoRow)
    requires cursor.Some? && |links| > 0
    requires RuntimeSeconds(links[0].runTime) == Ok(d)
    requires Fold(LinkStep(ctx, tripId), LinkState(cursor, stopNum, [], 0), links).Ok?
    requires row == LinkRow(ctx, tripId, links[0], stopNum, 0, cursor.value + d, cursor.value + d)
    ensures var ls := Fold(LinkStep(ctx, tripId), LinkState(cursor, stopNum, [], 0), links).value;
      ls.stopNum == stopNum + |links| && |ls.rows| == |links| && ls.rows[0] == row
  {
    LaterFirstStep(ctx, tripId, cursor, stopNum, links, d, row);
    LinkWalkGrows(ctx, tripId, LinkState(cursor, stopNum, [], 0), links);
    var rows := Fold(LinkStep(ctx, tripId), LinkState(cursor, stopNum, [], 0), links).value.rows;
    assert rows[..1] == [row];
    assert rows[0] == rows[..1][0];
  }

  /** A referenced section's state, from the link walk that starts at the
      cursor and `stop_num` the earlier sections left: `section_times` is
      the walk's rows followed by the closing stop, and `stop_num` goes on
      from where the walk ended. With LaterWalkFirstRow, a referenced section
      met after the clock has started numbers its rows from the carried
      `stop_num` and stamps its first stop at the carried cursor moved on by
      the first link's run time, without the timepoint flag. */
  lemma MatchedSectionRows(ctx: JourneyContext, s: SectionState, section: PatternSection, ls: LinkState)
    requires section.id in ctx.sectionRefs && |section.links| > 0
    requires Fold(LinkStep(ctx, TripId(section.id, ctx.attrs.weekdays, ctx.hour, ctx.minute)),
                  LinkState(s.cursor, s.stopNum, [], 0), section.links) == Ok(ls)
    ensures SectionRows(ctx, s, section).Ok?
    ensures var r := SectionRows(ctx, s, section).value;
      && r.stopNum == ls.stopNum && r.sectionTimes.Some?
      && |r.sectionTimes.value| == |ls.rows| + 1 && r.sectionTimes.value[..|ls.rows|] == ls.rows
    ensures |ls.rows| > 0 ==> SectionRows(ctx, s, section).value.sectionTimes.value[0] == ls.rows[0]
  {
    var tripId := TripId(section.id, ctx.attrs.weekdays, ctx.hour, ctx.minute);
    LinksStartClock(ctx, tripId, LinkState(s.cursor, s.stopNum, [], 0), section.links);
    var last := section.links[|section.links| - 1];
    var closing := ClosingRow(ctx, tripId, last, ls.cursor.value, ls.duration, ls.stopNum);
    assert SectionRows(ctx, s, section) == Ok(SectionState(ls.cursor, ls.stopNum, Some(ls.rows + [closing])));
    assert (ls.rows + [closing])[..|ls.rows|] == ls.rows;
  }

  // ---------------------------------------------------------------------------
  // What each journey adds to gtfs_info

  /** A journey appends the rows its section loop leaves in `section_times`
      and carries them on to the next journey. */
  lemma JourneyAppends(patternRows: seq<PatternRow>, sections: seq<PatternSection>, serviceWeekdays: Option<string>,
                       serviceNonOperative: Option<string>, s: JourneyState, journey: VehicleJourney, ctx: JourneyContext)
    requires JourneyContextOf(journey, patternRows, serviceWeekdays, serviceNonOperative) == Ok(ctx)
    requires Fold(SectionStep(ctx), SectionState(None, 1, s.sectionTimes), sections).Ok?
    ensures var left := Fold(SectionStep(ctx), SectionState(None, 1, s.sectionTimes), sections).value.sectionTimes;
      var r := NextJourney(patternRows, sections, serviceWeekdays, serviceNonOperative, s, journey);
      && (left.None? ==> r == Err(UnboundLocalError))
      && (left.Some? ==> r == Ok(JourneyState(left, s.gtfsInfo + left.value)))
  {
  }

  /** A journey whose pattern references none of the document's sections
      appends again the rows of the previous journey; as the first journey
      it fails, `section_times` never having been set. */
  lemma UnmatchedJourneyRepeats(patternRows: seq<PatternRow>, sections: seq<PatternSection>, serviceWeekdays: Option<string>,
                                serviceNonOperative: Option<string>, s: JourneyState, journey: VehicleJourney, ctx: JourneyContext)
    requires JourneyContextOf(journey, patternRows, serviceWeekdays, serviceNonOperative) == Ok(ctx)
    requires Unmatched(ctx, sections)
    ensures var r := NextJourney(patternRows, sections, serviceWeekdays, serviceNonOperative, s, journey);
      && (s.sectionTimes.None? ==> r == Err(UnboundLocalError))
      && (s.sectionTimes.Some? ==> r == Ok(JourneyState(s.sectionTimes, s.gtfsInfo + s.sectionTimes.value)))
  {
    SkipUnmatched(ctx, SectionState(None, 1, s.sectionTimes), sections);
  }
}
