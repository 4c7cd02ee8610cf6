/** Calendar dates as `datetime.strptime` reads them and `strftime` writes
    them, for the two formats the converter uses: `%Y-%m-%d` (the operating
    period of a service) and `%Y%m%d` (GTFS dates). */
module Dates {
  import opened Results
  import opened Text

  datatype Date = Date(year: int, month: int, day: int)

  predicate IsLeapYear(y: int) {
    y % 4 == 0 && (y % 100 != 0 || y % 400 == 0)
  }

  function DaysInMonth(y: int, m: int): (n: int)
    requires 1 <= m <= 12
    ensures 28 <= n <= 31
  {
    if m == 2 then (if IsLeapYear(y) then 29 else 28)
    else if m == 4 || m == 6 || m == 9 || m == 11 then 30
    else 31
  }

  /** The dates `datetime` can represent. */
  predicate ValidDate(d: Date) {
    1 <= d.year <= 9999 && 1 <= d.month <= 12 && 1 <= d.day <= DaysInMonth(d.year, d.month)
  }

  /** A number that orders dates chronologically. */
  function DayKey(d: Date): int {
    d.year * 10000 + d.month * 100 + d.day
  }

  /** a is on or before b. */
  predicate NotAfter(a: Date, b: Date) {
    DayKey(a) <= DayKey(b)
  }

  // ---------------------------------------------------------------------------
  // strftime

  function Pow10(n: nat): (p: nat)
    ensures p >= 1
  {
    if n == 0 then 1 else 10 * Pow10(n - 1)
  }

  /** A number zero-padded to at least `width` digits. */
  function Pad(n: nat, width: nat): string {
    ZFill(NatToString(n), width)
  }

  /** `strftime` with `%Y`, `%m` and `%d` separated by `sep`. */
  function DateText(d: Date, sep: string): string
    requires ValidDate(d)
  {
    Pad(d.year, 4) + sep + Pad(d.month, 2) + sep + Pad(d.day, 2)
  }

  /** `strftime('%Y%m%d')`, the GTFS date format. */
  function CompactText(d: Date): string
    requires ValidDate(d)
  {
    DateText(d, "")
  }

  // ---------------------------------------------------------------------------
  // strptime: the regular expression `(\d\d\d\d)` sep `(1[0-2]|0[1-9]|[1-9])`
  // sep `(3[01]|[12]\d|0[1-9]|[1-9]| [1-9])`, matched from the start of the
  // text with backtracking, then a check that no text is left over and that
  // the fields form a real date.

  predicate InRange(c: char, lo: char, hi: char) {
    lo <= c <= hi
  }

  /** The month alternatives that match at the start of s, in the order the
      regular expression tries them, each with the text after it. */
  function MonthChoices(s: string): seq<(int, string)> {
    (if |s| >= 2 && s[0] == '1' && InRange(s[1], '0', '2') then [(10 + DigitValue(s[1]), s[2..])] else [])
    + (if |s| >= 2 && s[0] == '0' && InRange(s[1], '1', '9') then [(DigitValue(s[1]), s[2..])] else [])
    + (if |s| >= 1 && InRange(s[0], '1', '9') then [(DigitValue(s[0]), s[1..])] else [])
  }

  /** The first day alternative that matches at the start of s. */
  function DayMatch(s: string): Option<(int, string)> {
    if |s| >= 2 && s[0] == '3' && InRange(s[1], '0', '1') then Some((30 + DigitValue(s[1]), s[2..]))
    else if |s| >= 2 && InRange(s[0], '1', '2') && IsDigit(s[1]) then Some((10 * DigitValue(s[0]) + DigitValue(s[1]), s[2..]))
    else if |s| >= 2 && s[0] == '0' && InRange(s[1], '1', '9') then Some((DigitValue(s[1]), s[2..]))
    else if |s| >= 1 && InRange(s[0], '1', '9') then Some((DigitValue(s[0]), s[1..]))
    else if |s| >= 2 && s[0] == ' ' && InRange(s[1], '1', '9') then Some((DigitValue(s[1]), s[2..]))
    else None
  }

  /** Backtracking over the month alternatives: the first one after which the
      separator and a day match. */
  function MatchMonthDay(choices: seq<(int, string)>, sep: string): Option<(int, int, string)>
    decreases |choices|
  {
    if |choices| == 0 then None
    else
      var rest := choices[0].1;
      if |rest| >= |sep| && rest[..|sep|] == sep && DayMatch(rest[|sep|..]).Some? then
        var dm := DayMatch(rest[|sep|..]).value;
        Some((choices[0].0, dm.0, dm.1))
      else MatchMonthDay(choices[1..], sep)
  }

  /** `datetime.strptime(s, '%Y' + sep + '%m' + sep + '%d')`. */
  function ParseDate(s: string, sep: string): (r: Result<Date>)
    ensures r.Ok? ==> ValidDate(r.value)
    ensures r.Err? ==> r.error == ValueError
  {
    if |s| < 4 + |sep| || !AllDigits(s[..4]) || s[4..4 + |sep|] != sep then Err(ValueError)
    else
      match MatchMonthDay(MonthChoices(s[4 + |sep|..]), sep)
      case None => Err(ValueError)
      case Some((m, d, rest)) =>
        var date := Date(DigitsValue(s[..4]), m, d);
        if rest != "" || !ValidDate(date) then Err(ValueError) else Ok(date)
  }

  // ---------------------------------------------------------------------------
  // Properties

  lemma {:induction false} DigitsValueBound(s: string)
    requires AllDigits(s)
    ensures DigitsValue(s) < Pow10(|s|)
    decreases |s|
  {
    if |s| > 0 {
      DigitsValueBound(s[..|s| - 1]);
    }
  }

  lemma {:induction false} DigitsValueConcat(a: string, b: string)
    requires AllDigits(a) && AllDigits(b)
    ensures AllDigits(a + b)
    ensures DigitsValue(a + b) == DigitsValue(a) * Pow10(|b|) + DigitsValue(b)
    decreases |b|
  {
    var t := a + b;
    if |b| == 0 {
      assert t == a;
    } else {
      var b0 := b[..|b| - 1];
      DigitsValueConcat(a, b0);
      assert t[..|t| - 1] == a + b0;
      var va, p, vb, c := DigitsValue(a), Pow10(|b0|), DigitsValue(b0), DigitValue(b[|b| - 1]);
      assert DigitsValue(t) == (va * p + vb) * 10 + c;
      assert DigitsValue(b) == vb * 10 + c;
      assert Pow10(|b|) == p * 10;
      Regroup(va, p, vb, c);
    }
  }

  lemma Regroup(va: int, p: int, vb: int, c: int)
    ensures (va * p + vb) * 10 + c == va * (p * 10) + (vb * 10 + c)
  {
  }

  lemma {:induction false} NatToStringLength(n: nat, w: nat)
    requires 1 <= w && n < Pow10(w)
    ensures |NatToString(n)| <= w
    decreases w
  {
    if n >= 10 {
      NatToStringLength(n / 10, w - 1);
    }
  }

  /** A padded number is `width` digits with the number's value. */
  lemma PadValue(n: nat, width: nat)
    requires 1 <= width && n < Pow10(width)
    ensures |Pad(n, width)| == width && AllDigits(Pad(n, width))
    ensures DigitsValue(Pad(n, width)) == n
  {
    NatToStringLength(n, width);
    DigitsValueOfNat(n);
    var s := NatToString(n);
    DigitsValueLeadingZeros(width - |s|, s);
  }

  lemma TwoDigits(s: string)
    requires |s| == 2 && AllDigits(s)
    ensures DigitsValue(s) == 10 * DigitValue(s[0]) + DigitValue(s[1])
  {
    assert s[..1][..0] == [];
    assert s[..1][0] == s[0];
    assert DigitsValue(s[..1]) == DigitValue(s[0]);
  }

  /** The compact text of a valid date is eight digits whose value is the
      date's key. */
  lemma CompactTextValue(d: Date)
    requires ValidDate(d)
    ensures |CompactText(d)| == 8 && AllDigits(CompactText(d))
    ensures DigitsValue(CompactText(d)) == DayKey(d)
  {
    PadValue(d.year, 4);
    PadValue(d.month, 2);
    PadValue(d.day, 2);
    var y, m, dd := Pad(d.year, 4), Pad(d.month, 2), Pad(d.day, 2);
    assert CompactText(d) == y + m + dd;
    ThreePartsValue(y, m, dd);
  }

  lemma ThreePartsValue(y: string, m: string, dd: string)
    requires AllDigits(y) && AllDigits(m) && AllDigits(dd) && |m| == 2 && |dd| == 2
    ensures AllDigits(y + m + dd)
    ensures DigitsValue(y + m + dd) == DigitsValue(y) * 10000 + DigitsValue(m) * 100 + DigitsValue(dd)
  {
    DigitsValueConcat(y, m);
    DigitsValueConcat(y + m, dd);
    assert Pow10(2) == 100;
  }

  /** Reading a padded two-digit month gives it back, with the text after it. */
  lemma MonthRoundTrip(m: int, rest: string)
    requires 1 <= m <= 12
    ensures MonthChoices(Pad(m, 2) + rest) != []
    ensures MonthChoices(Pad(m, 2) + rest)[0] == (m, rest)
  {
    PadValue(m, 2);
    var p := Pad(m, 2);
    TwoDigits(p);
    var s := p + rest;
    assert s[0] == p[0] && s[1] == p[1] && s[2..] == rest;
    if m >= 10 {
      assert DigitValue(p[0]) == 1;
      assert p[0] == '1';
    } else {
      assert DigitValue(p[0]) == 0;
      assert p[0] == '0';
    }
  }

  lemma DayRoundTrip(d: int)
    requires 1 <= d <= 31
    ensures DayMatch(Pad(d, 2)) == Some((d, ""))
  {
    PadValue(d, 2);
    var p := Pad(d, 2);
    TwoDigits(p);
    if d >= 30 {
      assert DigitValue(p[0]) == 3;
      assert p[0] == '3';
      assert DigitValue(p[1]) == d - 30;
      assert p[1] as int <= '1' as int;
      assert InRange(p[1], '0', '1');
      assert DayMatch(p) == Some((30 + DigitValue(p[1]), p[2..]));
      assert p[2..] == [];
    } else if d >= 10 {
      assert 1 <= DigitValue(p[0]) <= 2;
      assert p[0] == '1' || p[0] == '2';
      assert InRange(p[0], '1', '2') && IsDigit(p[1]);
      assert DayMatch(p) == Some((10 * DigitValue(p[0]) + DigitValue(p[1]), p[2..]));
      assert p[2..] == [];
    } else {
      assert DigitValue(p[0]) == 0;
      assert p[0] == '0';
      assert DigitValue(p[1]) == d;
      assert p[1] as int >= '1' as int;
      assert InRange(p[1], '1', '9');
      assert DayMatch(p) == Some((DigitValue(p[1]), p[2..]));
      assert p[2..] == [];
    }
  }

  /** `strptime` reads back what `strftime` wrote, whatever the separator. */
  lemma {:induction false} ParseDateText(d: Date, sep: string)
    requires ValidDate(d)
    ensures ParseDate(DateText(d, sep), sep) == Ok(d)
  {
    PadValue(d.year, 4);
    var y := Pad(d.year, 4);
    var rest := sep + Pad(d.day, 2);
    var s := DateText(d, sep);
    assert s == y + sep + (Pad(d.month, 2) + rest);
    assert s[..4] == y;
    assert s[4..4 + |sep|] == sep;
    assert s[4 + |sep|..] == Pad(d.month, 2) + rest;
    MonthRoundTrip(d.month, rest);
    DayRoundTrip(d.day);
    assert rest[|sep|..] == Pad(d.day, 2);
  }

  /** Fixed-width digit strings compare as text the way their values compare. */
  lemma {:induction false} FixedWidthLess(x: string, y: string)
    requires |x| == |y| && AllDigits(x) && AllDigits(y)
    ensures Less(x, y) <==> DigitsValue(x) < DigitsValue(y)
    decreases |x|
  {
    if |x| > 0 {
      DigitsFront(x);
      DigitsFront(y);
      DigitsValueBound(x[1..]);
      DigitsValueBound(y[1..]);
      var p := Pow10(|x| - 1);
      var x0, y0 := DigitValue(x[0]), DigitValue(y[0]);
      var rx, ry := DigitsValue(x[1..]), DigitsValue(y[1..]);
      if x[0] == y[0] {
        FixedWidthLess(x[1..], y[1..]);
      } else if x[0] < y[0] {
        LeadingDigitDecides(x0, rx, y0, ry, p);
      } else {
        LeadingDigitDecides(y0, ry, x0, rx, p);
      }
    }
  }

  lemma LeadingDigitDecides(x0: int, rx: int, y0: int, ry: int, p: int)
    requires p >= 1 && 0 <= rx < p && 0 <= ry < p && x0 < y0
    ensures x0 * p + rx < y0 * p + ry
  {
    var k := y0 - x0 - 1;
    assert k * p >= 0;
    assert y0 * p == x0 * p + k * p + p;
  }

  lemma DigitsFront(s: string)
    requires |s| > 0 && AllDigits(s)
    ensures DigitsValue(s) == DigitValue(s[0]) * Pow10(|s| - 1) + DigitsValue(s[1..])
  {
    var a, b := s[..1], s[1..];
    DigitsValueConcat(a, b);
    assert a + b == s;
    assert a[..0] == [];
    assert DigitsValue(a) == DigitValue(s[0]);
  }

  /** Compact date texts compare as text the way the dates compare, so the
      string minimum of a column of them is its earliest date. */
  lemma CompactOrder(a: Date, b: Date)
    requires ValidDate(a) && ValidDate(b)
    ensures Less(CompactText(a), CompactText(b)) <==> DayKey(a) < DayKey(b)
  {
    CompactTextValue(a);
    CompactTextValue(b);
    FixedWidthLess(CompactText(a), CompactText(b));
  }

  /** Different valid dates have different keys. */
  lemma DayKeyInjective(a: Date, b: Date)
    requires ValidDate(a) && ValidDate(b) && DayKey(a) == DayKey(b)
    ensures a == b
  {
  }

  /** `strptime('2019-12-24', '%Y-%m-%d')` written as `%Y%m%d`. */
  lemma IsoToCompactExample()
    ensures ParseDate("2019-12-24", "-") == Ok(Date(2019, 12, 24))
    ensures CompactText(Date(2019, 12, 24)) == "20191224"
  {
    ParseDateText(Date(2019, 12, 24), "-");
    assert DateText(Date(2019, 12, 24), "-") == "2019-12-24" by {
      assert NatToString(2019) == "2019";
      assert NatToString(12) == "12";
      assert NatToString(24) == "24";
    }
    assert NatToString(2019) == "2019";
    assert NatToString(12) == "12";
    assert NatToString(24) == "24";
  }

  /** Month 13 is not an alternative of the month expression: after `1` the
      text `3-01` does not continue with the separator. */
  lemma ParseDateRejectsMonth13()
    ensures ParseDate("2019-13-01", "-") == Err(ValueError)
  {
    var bad := "2019-13-01";
    assert bad[4..5] == "-" && bad[5..] == "13-01";
    assert MonthChoices("13-01") == [(1, "3-01")];
    assert "3-01"[..1] == "3";
    assert [(1, "3-01")][1..] == [];
    assert MatchMonthDay([(1, "3-01")], "-") == None;
  }

  lemma DigitsValue2019()
    ensures AllDigits("2019") && DigitsValue("2019") == 2019
  {
    assert "2019"[..3] == "201";
    assert "201"[..2] == "20";
    assert "20"[..1] == "2";
    assert "2"[..0] == "";
  }

  /** The 29th of February exists only in leap years. */
  lemma ParseDateRejectsFeb29()
    ensures ParseDate("2019-02-29", "-") == Err(ValueError)
  {
    var s := "2019-02-29";
    assert s[..4] == "2019" && s[4..5] == "-" && s[5..] == "02-29";
    DigitsValue2019();
    assert MonthChoices("02-29") == [(2, "-29")];
    assert "-29"[..1] == "-" && "-29"[1..] == "29";
    assert DayMatch("29") == Some((29, ""));
  }
}
