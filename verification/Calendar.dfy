/** Day counts and Gregorian dates. `Audit` and `History` each keep their own copy of the
    conversion; both are compared with the calendar itself. */
module Calendar {

  datatype Date = Date(year: int, month: int, day: int)

  // ----- the proleptic Gregorian calendar -----

  /** The leap rule of Appendix C of RFC 3339. */
  predicate IsLeap(year: int) {
    year % 4 == 0 && (year % 100 != 0 || year % 400 == 0)
  }

  function MonthLength(year: int, month: int): int {
    if month == 2 then (if IsLeap(year) then 29 else 28)
    else if month == 4 || month == 6 || month == 9 || month == 11 then 30
    else 31
  }

  predicate IsDate(d: Date) {
    1 <= d.month <= 12 && 1 <= d.day <= MonthLength(d.year, d.month)
  }

  function NextDate(d: Date): Date {
    if d.day < MonthLength(d.year, d.month) then Date(d.year, d.month, d.day + 1)
    else if d.month < 12 then Date(d.year, d.month + 1, 1)
    else Date(d.year + 1, 1, 1)
  }

  /** Days from 0001-01-01 to the start of `year`. */
  function DaysBeforeYear(year: int): int {
    var y := year - 1;
    365 * y + y / 4 - y / 100 + y / 400
  }

  function DaysBeforeMonth(year: int, month: int): int {
    if month <= 1 then 0 else DaysBeforeMonth(year, month - 1) + MonthLength(year, month - 1)
  }

  /** Days since 1970-01-01. */
  function DayNumber(d: Date): int {
    DaysBeforeYear(d.year) - DaysBeforeYear(1970) + DaysBeforeMonth(d.year, d.month) + d.day - 1
  }

  lemma QuotientSteps(x: int)
    ensures x / 4 - (x - 1) / 4 == if x % 4 == 0 then 1 else 0
    ensures x / 100 - (x - 1) / 100 == if x % 100 == 0 then 1 else 0
    ensures x / 400 - (x - 1) / 400 == if x % 400 == 0 then 1 else 0
  {
  }

  lemma LeapMultiples(x: int)
    ensures x % 400 == 0 ==> x % 100 == 0
    ensures x % 100 == 0 ==> x % 4 == 0
  {
    assert x % 400 == 0 ==> x == 400 * (x / 400);
    assert x % 100 == 0 ==> x == 100 * (x / 100);
  }

  lemma YearLength(year: int)
    ensures DaysBeforeYear(year + 1) == DaysBeforeYear(year) + (if IsLeap(year) then 366 else 365)
  {
    QuotientSteps(year);
    LeapMultiples(year);
  }

  lemma MonthTable(year: int)
    ensures var leap := if IsLeap(year) then 1 else 0;
            && DaysBeforeMonth(year, 1) == 0 && DaysBeforeMonth(year, 2) == 31
            && DaysBeforeMonth(year, 3) == 59 + leap && DaysBeforeMonth(year, 4) == 90 + leap
            && DaysBeforeMonth(year, 5) == 120 + leap && DaysBeforeMonth(year, 6) == 151 + leap
            && DaysBeforeMonth(year, 7) == 181 + leap && DaysBeforeMonth(year, 8) == 212 + leap
            && DaysBeforeMonth(year, 9) == 243 + leap && DaysBeforeMonth(year, 10) == 273 + leap
            && DaysBeforeMonth(year, 11) == 304 + leap && DaysBeforeMonth(year, 12) == 334 + leap
            && DaysBeforeMonth(year, 13) == 365 + leap
  {
    assert DaysBeforeMonth(year, 3) == 31 + MonthLength(year, 2);
    assert DaysBeforeMonth(year, 5) == DaysBeforeMonth(year, 3) + 61;
    assert DaysBeforeMonth(year, 7) == DaysBeforeMonth(year, 5) + 61;
    assert DaysBeforeMonth(year, 9) == DaysBeforeMonth(year, 7) + 62;
    assert DaysBeforeMonth(year, 11) == DaysBeforeMonth(year, 9) + 61;
  }

  /** The day number counts calendar days one by one. */
  lemma NextDateIsNextDay(d: Date)
    requires IsDate(d)
    ensures IsDate(NextDate(d)) && DayNumber(NextDate(d)) == DayNumber(d) + 1
  {
    YearLength(d.year);
    MonthTable(d.year);
    MonthTable(d.year + 1);
    hide DaysBeforeYear;
    if d.day == MonthLength(d.year, d.month) && d.month < 12 {
      assert DaysBeforeMonth(d.year, d.month + 1) == DaysBeforeMonth(d.year, d.month) + MonthLength(d.year, d.month);
    }
  }

  predicate Earlier(a: Date, b: Date) {
    a.year < b.year || (a.year == b.year && (a.month < b.month || (a.month == b.month && a.day < b.day)))
  }

  lemma {:induction false} YearsGrow(a: int, b: int)
    requires a < b
    ensures DaysBeforeYear(a) + (if IsLeap(a) then 366 else 365) <= DaysBeforeYear(b)
    decreases b - a
  {
    hide DaysBeforeYear;
    YearLength(b - 1);
    if a < b - 1 {
      YearsGrow(a, b - 1);
    } else {
      YearLength(a);
    }
  }

  lemma {:induction false} MonthsGrow(year: int, a: int, b: int)
    requires 1 <= a < b
    ensures DaysBeforeMonth(year, a) + MonthLength(year, a) <= DaysBeforeMonth(year, b)
    decreases b - a
  {
    if a < b - 1 {
      MonthsGrow(year, a, b - 1);
    }
  }

  lemma DayOfYear(d: Date)
    requires IsDate(d)
    ensures 0 <= DaysBeforeMonth(d.year, d.month) + d.day - 1 < if IsLeap(d.year) then 366 else 365
  {
    MonthTable(d.year);
    MonthsGrow(d.year, d.month, 13);
    if d.month > 1 {
      MonthsGrow(d.year, 1, d.month);
    }
  }

  lemma EarlierMeansSmaller(a: Date, b: Date)
    requires IsDate(a) && IsDate(b) && Earlier(a, b)
    ensures DayNumber(a) < DayNumber(b)
  {
    DayOfYear(a);
    DayOfYear(b);
    if a.year < b.year {
      YearsGrow(a.year, b.year);
    } else if a.month < b.month {
      MonthsGrow(a.year, a.month, b.month);
    }
    hide DaysBeforeYear, DaysBeforeMonth, MonthLength;
  }

  /** A day number names at most one date. */
  lemma DayNumberIsInjective(a: Date, b: Date)
    requires IsDate(a) && IsDate(b) && DayNumber(a) == DayNumber(b)
    ensures a == b
  {
    if Earlier(a, b) {
      EarlierMeansSmaller(a, b);
    } else if Earlier(b, a) {
      EarlierMeansSmaller(b, a);
    }
    hide DayNumber;
  }

  // ----- the arithmetic both copies rely on -----

  /** Division of machine integers, truncating toward zero. */
  function Quotient(a: int, b: int): int
    requires b > 0
  {
    if a >= 0 then a / b else -((-a) / b)
  }

  /** Days from March 1st of year 0 to the first of March-based month `mp` (0 is March) of year `y`. */
  function MarchDays(y: int, mp: int): int {
    365 * y + y / 4 - y / 100 + y / 400 + (153 * mp + 2) / 5
  }

  /** Counting from March agrees with counting from January. */
  lemma MarchCount(y: int, mp: int, day: int)
    requires 0 <= mp < 12
    ensures var m := if mp < 10 then mp + 3 else mp - 9;
            DayNumber(Date(if m <= 2 then y + 1 else y, m, day)) == MarchDays(y, mp) + day - 1 - 719_468
  {
    YearLength(y);
    MonthTable(y);
    MonthTable(y + 1);
    assert DaysBeforeYear(y + 1) == 365 * y + y / 4 - y / 100 + y / 400;
    assert DaysBeforeYear(1970) == 719_162;
    hide DaysBeforeMonth, DaysBeforeYear;
  }

  /** The era of a shifted day count: 400 years of 146097 days, rounded down. */
  lemma EraOf(z: int)
    ensures var era := Quotient(if z >= 0 then z else z - 146_096, 146_097);
            0 <= z - era * 146_097 < 146_097
  {
  }

  /** Splitting a day of the era into centuries, four-year cycles and days finds its year. */
  lemma YearOfEra(doe: int)
    requires 0 <= doe < 146_097
    ensures var yoe := (doe - doe / 1460 + doe / 36524 - doe / 146_096) / 365;
            var doy := doe - (365 * yoe + yoe / 4 - yoe / 100);
            && 0 <= yoe < 400 && 0 <= doy <= 365
            && (doy == 365 ==> IsLeap(yoe + 1))
  {
    var c := if doe == 146_096 then 3 else doe / 36524;
    var r := doe - 36524 * c;
    var b, s := r / 1461, r % 1461;
    CycleYear(doe, c, b, s);
  }

  lemma CycleYear(doe: int, c: int, b: int, s: int)
    requires 0 <= c <= 3 && 0 <= b <= 24 && 0 <= s <= 1460 && doe == 36524 * c + 1461 * b + s
    requires b == 24 && s == 1460 ==> c == 3
    ensures var yoe := (doe - doe / 1460 + doe / 36524 - doe / 146_096) / 365;
            var doy := doe - (365 * yoe + yoe / 4 - yoe / 100);
            && 0 <= yoe < 400 && 0 <= doy <= 365
            && (doy == 365 ==> IsLeap(yoe + 1))
  {
    var a := if s == 1460 then 3 else s / 365;
    CycleQuotients(doe, c, b, s);
    CycleLeaps(c, b, a);
    assert 0 <= s - 365 * a <= 365 && (s - 365 * a == 365 ==> s == 1460);
  }

  lemma CycleLeaps(c: int, b: int, a: int)
    requires 0 <= c <= 3 && 0 <= b <= 24 && 0 <= a <= 3
    ensures var yoe := 100 * c + 4 * b + a;
            yoe / 4 == 25 * c + b && yoe / 100 == c && (a == 3 && (b == 24 ==> c == 3) ==> IsLeap(yoe + 1))
  {
    var next := 100 * c + 4 * b + 4;
    assert next % 4 == 0;
    if b == 24 {
      assert next == 100 * (c + 1);
    } else {
      assert next / 100 == c && next % 100 == 4 * b + 4;
    }
  }

  lemma CycleQuotients(doe: int, c: int, b: int, s: int)
    requires 0 <= c <= 3 && 0 <= b <= 24 && 0 <= s <= 1460 && doe == 36524 * c + 1461 * b + s
    requires b == 24 && s == 1460 ==> c == 3
    ensures (doe - doe / 1460 + doe / 36524 - doe / 146_096) / 365
            == 100 * c + 4 * b + (if s == 1460 then 3 else s / 365)
  {
    var e := if 24 * c + b + s >= 1460 then 1 else 0;
    FourYears(doe, c, b, s);
    Centuries(doe, c, b, s);
    RestOfCycle(s, e, 24 * c + b);
    WholeYears(100 * c + 4 * b, s - e);
    assert doe - doe / 1460 + doe / 36524 - doe / 146_096 == 365 * (100 * c + 4 * b) + (s - e);
  }

  lemma FourYears(doe: int, c: int, b: int, s: int)
    requires 0 <= c <= 3 && 0 <= b <= 24 && 0 <= s <= 1460 && doe == 36524 * c + 1461 * b + s
    ensures doe / 1460 == 25 * c + b + (if 24 * c + b + s >= 1460 then 1 else 0)
  {
    var q := 25 * c + b;
    assert doe - 1460 * q == 24 * c + b + s;
  }

  lemma Centuries(doe: int, c: int, b: int, s: int)
    requires 0 <= c <= 3 && 0 <= b <= 24 && 0 <= s <= 1460 && doe == 36524 * c + 1461 * b + s
    requires b == 24 && s == 1460 ==> c == 3
    ensures doe / 36524 - doe / 146_096 == c
  {
    assert 1461 * b + s <= 36524 && (1461 * b + s == 36524 ==> c == 3);
  }

  lemma RestOfCycle(s: int, e: int, past: int)
    requires 0 <= s <= 1460 && 0 <= past <= 96 && e == if past + s >= 1460 then 1 else 0
    ensures s - e >= 0 && (s - e) / 365 == if s == 1460 then 3 else s / 365
  {
  }

  lemma WholeYears(years: int, days: int)
    requires days >= 0
    ensures (365 * years + days) / 365 == years + days / 365
  {
  }
}

/** The audit log's dates. */
module Audit {
  import opened Calendar
  import opened Text

  /** The 400-year era of a shifted day count, rounded down. */
  function Era(z: int): int {
    Quotient(if z >= 0 then z else z - 146_096, 146_097)
  }

  /** The year of the era a day of the era falls in. */
  function EraYear(doe: int): int {
    (doe - doe / 1460 + doe / 36524 - doe / 146_096) / 365
  }

  /** The day of that year, counted from March 1st. */
  function EraDay(doe: int): int {
    var yoe := EraYear(doe);
    doe - (365 * yoe + yoe / 4 - yoe / 100)
  }

  /** The civil date of day `doy` of the year that starts in March of year `y`. */
  function FromMarch(y: int, doy: int): Date {
    var mp := (5 * doy + 2) / 153;
    var d := doy - (153 * mp + 2) / 5 + 1;
    var m := if mp < 10 then mp + 3 else mp - 9;
    Date(if m <= 2 then y + 1 else y, m, d)
  }

  /** civil_from_days */
  function CivilFromDays(days: int): Date {
    var z := days + 719_468;
    var era := Era(z);
    var doe := z - era * 146_097;
    FromMarch(EraYear(doe) + era * 400, EraDay(doe))
  }

  lemma MonthOfYear(doy: int)
    requires 0 <= doy <= 365
    ensures var mp := (5 * doy + 2) / 153;
            var d := doy - (153 * mp + 2) / 5 + 1;
            && 0 <= mp < 12 && 1 <= d <= 31
            && (mp == 1 || mp == 3 || mp == 6 || mp == 8 ==> d <= 30)
            && (mp == 11 ==> d <= 29 && (d == 29 ==> doy == 365))
  {
  }

  lemma Shift(x: int, era: int)
    ensures (x + era * 400) / 4 == x / 4 + 100 * era && (x + era * 400) % 4 == x % 4
    ensures (x + era * 400) / 100 == x / 100 + 4 * era && (x + era * 400) % 100 == x % 100
    ensures (x + era * 400) / 400 == x / 400 + era && (x + era * 400) % 400 == x % 400
  {
  }

  /** Whole eras neither change the leap rule nor the position inside the era. */
  lemma EraShift(yoe: int, era: int)
    requires 0 <= yoe < 400
    ensures MarchDays(yoe + era * 400, 0) == era * 146_097 + 365 * yoe + yoe / 4 - yoe / 100
    ensures IsLeap(yoe + 1) <==> IsLeap(yoe + era * 400 + 1)
  {
    Shift(yoe, era);
    Shift(yoe + 1, era);
  }

  /** Where a day of an era lies in the March-based count. */
  lemma EraPosition(era: int, doe: int)
    requires 0 <= doe < 146_097
    ensures var y := EraYear(doe) + era * 400;
            && 0 <= EraDay(doe) <= 365 && (EraDay(doe) == 365 ==> IsLeap(y + 1))
            && MarchDays(y, 0) + EraDay(doe) == era * 146_097 + doe
  {
    YearOfEra(doe);
    EraShift(EraYear(doe), era);
    hide EraYear, IsLeap, MarchDays;
  }

  /** A March-based day of the year is a date of the civil year it falls in. */
  lemma MarchDateIsDate(y: int, doy: int)
    requires 0 <= doy <= 365 && (doy == 365 ==> IsLeap(y + 1))
    ensures var date := FromMarch(y, doy);
            IsDate(date) && DayNumber(date) == MarchDays(y, 0) + doy - 719_468
  {
    MonthOfYear(doy);
    var mp := (5 * doy + 2) / 153;
    MarchCount(y, mp, doy - (153 * mp + 2) / 5 + 1);
    hide DayNumber, IsLeap;
  }

  lemma EraHolds(z: int)
    ensures 0 <= z - Era(z) * 146_097 < 146_097
  {
    EraOf(z);
    hide Quotient;
  }

  lemma PositionIsDate(era: int, doe: int)
    requires 0 <= doe < 146_097
    ensures var date := FromMarch(EraYear(doe) + era * 400, EraDay(doe));
            IsDate(date) && DayNumber(date) == era * 146_097 + doe - 719_468
  {
    hide EraYear, EraDay, FromMarch, IsLeap, DayNumber, IsDate, MarchDays;
    EraPosition(era, doe);
    MarchDateIsDate(EraYear(doe) + era * 400, EraDay(doe));
  }

  /** Every day number, however far in the past or future, is converted to the date it counts to. */
  lemma CivilIsTheDate(days: int)
    ensures IsDate(CivilFromDays(days)) && DayNumber(CivilFromDays(days)) == days
  {
    hide Era, EraYear, EraDay, FromMarch, DayNumber, IsDate;
    var z := days + 719_468;
    EraHolds(z);
    PositionIsDate(Era(z), z - Era(z) * 146_097);
  }

  /** The conversion inverts the day count on every date, and steps through the calendar day by day. */
  lemma CivilInvertsDayNumber(d: Date)
    requires IsDate(d)
    ensures CivilFromDays(DayNumber(d)) == d
    ensures CivilFromDays(DayNumber(d) + 1) == NextDate(d)
  {
    hide CivilFromDays, DayNumber;
    CivilIsTheDate(DayNumber(d));
    DayNumberIsInjective(CivilFromDays(DayNumber(d)), d);
    NextDateIsNextDay(d);
    CivilIsTheDate(DayNumber(d) + 1);
    DayNumberIsInjective(CivilFromDays(DayNumber(d) + 1), NextDate(d));
  }

  // ----- printed dates -----

  lemma SinceTheEpoch(days: nat)
    ensures IsDate(CivilFromDays(days)) && CivilFromDays(days).year >= 1970
  {
    CivilIsTheDate(days);
    var epoch := Date(1970, 1, 1);
    MonthTable(1970);
    hide CivilFromDays, DaysBeforeYear;
    if CivilFromDays(days).year < 1970 {
      EarlierMeansSmaller(CivilFromDays(days), epoch);
    }
  }

  function PrintDate(d: Date): string
    requires IsDate(d) && d.year >= 0
  {
    Padded(d.year, 4) + "-" + Padded(d.month, 2) + "-" + Padded(d.day, 2)
  }

  function PrintMinute(second: nat): string {
    Padded(second / 3600, 2) + ":" + Padded(second % 3600 / 60, 2)
  }

  /** fmt_date */
  function FmtDate(timestampMs: nat): string {
    var days := timestampMs / 1000 / 86_400;
    SinceTheEpoch(days);
    PrintDate(CivilFromDays(days))
  }

  /** fmt_utc */
  function FmtUtc(timestampMs: nat): string {
    FmtDate(timestampMs) + " " + PrintMinute(timestampMs / 1000 % 86_400)
  }

  lemma PowersOfTen()
    ensures Power10(1) == 10 && Power10(2) == 100 && Power10(4) == 10_000
  {
    assert Power10(3) == 1000;
  }

  // ----- reading printed dates and times back -----

  /** The number a text of decimal digits stands for. */
  function Number(s: string): int {
    if s == "" then 0 else 10 * Number(s[..|s| - 1]) + (s[|s| - 1] as int - '0' as int)
  }

  lemma {:induction false} DigitsReadBack(n: nat, width: nat)
    requires n < Power10(width)
    ensures Number(Digits(n, width)) == n
  {
    if width > 0 {
      var s := Digits(n, width);
      assert s[..|s| - 1] == Digits(n / 10, width - 1);
      DigitsReadBack(n / 10, width - 1);
    }
  }

  lemma PaddedReadsBack(n: nat, width: nat)
    requires n < Power10(width)
    ensures |Padded(n, width)| == width && Number(Padded(n, width)) == n
  {
    DigitsReadBack(n, width);
  }

  /** A printed date of a year up to 9999 is its year, month and day, in this order and in fixed places. */
  lemma DateReadsBack(d: Date)
    requires IsDate(d) && 0 <= d.year <= 9999
    ensures var text := PrintDate(d);
            && |text| == 10 && text[4] == '-' && text[7] == '-'
            && Number(text[..4]) == d.year && Number(text[5..7]) == d.month && Number(text[8..]) == d.day
  {
    PowersOfTen();
    hide Power10, Digits, Number;
    PaddedReadsBack(d.year, 4);
    PaddedReadsBack(d.month, 2);
    PaddedReadsBack(d.day, 2);
    var text := PrintDate(d);
    assert text[..4] == Padded(d.year, 4) && text[5..7] == Padded(d.month, 2) && text[8..] == Padded(d.day, 2);
  }

  /** A printed time of day is its hour and its minute, so it gives the second back up to the minute. */
  lemma MinuteReadsBack(second: nat)
    requires second < 86_400
    ensures var text := PrintMinute(second);
            && |text| == 5 && text[2] == ':'
            && Number(text[..2]) == second / 3600 && 0 <= Number(text[3..]) < 60
            && second - 59 <= Number(text[..2]) * 3600 + Number(text[3..]) * 60 <= second
  {
    PowersOfTen();
    hide Power10, Digits, Number;
    PaddedReadsBack(second / 3600, 2);
    PaddedReadsBack(second % 3600 / 60, 2);
    var text := PrintMinute(second);
    assert text[..2] == Padded(second / 3600, 2) && text[3..] == Padded(second % 3600 / 60, 2);
  }

  /** Printed dates of years up to 9999 sort as text in calendar order. */
  lemma PrintedOrder(a: Date, b: Date)
    requires IsDate(a) && IsDate(b) && 0 <= a.year && b.year <= 9999 && Earlier(a, b)
    ensures Before(PrintDate(a), PrintDate(b))
  {
    PowersOfTen();
    hide Power10, Before;
    var ya, ma, da := Padded(a.year, 4), Padded(a.month, 2), Padded(a.day, 2);
    var yb, mb, db := Padded(b.year, 4), Padded(b.month, 2), Padded(b.day, 2);
    assert PrintDate(a) == ya + ("-" + (ma + ("-" + da)));
    assert PrintDate(b) == yb + ("-" + (mb + ("-" + db)));
    if a.year < b.year {
      DigitsOrder(a.year, b.year, 4);
      BeforeByHead(ya, yb, "-" + (ma + ("-" + da)), "-" + (mb + ("-" + db)));
    } else {
      if a.month < b.month {
        DigitsOrder(a.month, b.month, 2);
        BeforeByHead(ma, mb, "-" + da, "-" + db);
      } else {
        DigitsOrder(a.day, b.day, 2);
        BeforeByTail("-", da, db);
        BeforeByTail(ma, "-" + da, "-" + db);
      }
      BeforeByTail("-", ma + ("-" + da), mb + ("-" + db));
      BeforeByTail(ya, "-" + (ma + ("-" + da)), "-" + (mb + ("-" + db)));
    }
  }

  /** Grouping by fmt_date groups by day: two timestamps print alike exactly when they fall on
      the same day, and otherwise the earlier day's text sorts first (through year 9999). */
  lemma DateTextsOrderDays(s: nat, t: nat)
    requires s <= t && CivilFromDays(t / 1000 / 86_400).year <= 9999
    ensures var x, y := s / 1000 / 86_400, t / 1000 / 86_400;
            (x == y <==> FmtDate(s) == FmtDate(t)) && (x < y ==> Before(FmtDate(s), FmtDate(t)))
  {
    var x, y := s / 1000 / 86_400, t / 1000 / 86_400;
    SinceTheEpoch(x);
    SinceTheEpoch(y);
    var a, b := CivilFromDays(x), CivilFromDays(y);
    CivilIsTheDate(x);
    CivilIsTheDate(y);
    hide CivilFromDays, DayNumber, PrintDate, Before, IsDate;
    if x < y {
      if Earlier(b, a) {
        EarlierMeansSmaller(b, a);
      }
      assert a != b;
      assert Earlier(a, b);
      PrintedOrder(a, b);
      BeforeIsTotal(PrintDate(a), PrintDate(b));
    }
  }
}

/** The shell history's own copy. */
module History {
  import opened Calendar
  import opened Text
  import Audit

  function OfYear(y: int, doy: int): Date {
    var mp := (5 * doy + 2) / 153;
    var d := doy - (153 * mp + 2) / 5 + 1;
    var m := if mp < 10 then mp + 3 else mp - 9;
    Date(if m <= 2 then y + 1 else y, m, d)
  }

  function OfEra(era: int, doe: int): Date {
    var yoe := (doe - doe / 1460 + doe / 36_524 - doe / 146_096) / 365;
    OfYear(yoe + era * 400, doe - (365 * yoe + yoe / 4 - yoe / 100))
  }

  /** civil_from_days, as the history module spells it. */
  function CivilFromDays(days: int): Date {
    var z := days + 719_468;
    var era := Quotient(if z >= 0 then z else z - 146_096, 146_097);
    OfEra(era, z - era * 146_097)
  }

  lemma YearsAgree(y: int, doy: int)
    ensures OfYear(y, doy) == Audit.FromMarch(y, doy)
  {
  }

  lemma ErasAgree(era: int, doe: int)
    ensures OfEra(era, doe) == Audit.FromMarch(Audit.EraYear(doe) + era * 400, Audit.EraDay(doe))
  {
    hide OfYear, Audit.FromMarch;
    YearsAgree(Audit.EraYear(doe) + era * 400, Audit.EraDay(doe));
  }

  lemma CopiesAgree(days: int)
    ensures CivilFromDays(days) == Audit.CivilFromDays(days)
  {
    hide OfEra, Audit.FromMarch, Audit.EraYear, Audit.EraDay;
    var z := days + 719_468;
    ErasAgree(Audit.Era(z), z - Audit.Era(z) * 146_097);
  }

  /** fmt_time; an unknown time prints as blanks. */
  function FmtTime(epoch: nat): string {
    if epoch == 0 then seq(16, _ => ' ')
    else
      var days := epoch / 86_400;
      CopiesAgree(days);
      Audit.SinceTheEpoch(days);
      Audit.PrintDate(CivilFromDays(days)) + " " + Audit.PrintMinute(epoch % 86_400)
  }

  /** The history prints the date and the time of day of a known second; an unknown one is as wide, and blank. */
  lemma TimeReadsBack(epoch: nat)
    requires epoch > 0 ==> CivilFromDays(epoch / 86_400).year <= 9999
    ensures |FmtTime(epoch)| == 16
    ensures epoch == 0 ==> forall i :: 0 <= i < 16 ==> FmtTime(epoch)[i] == ' '
    ensures epoch > 0 ==>
              var date, time := FmtTime(epoch)[..10], FmtTime(epoch)[11..];
              && FmtTime(epoch)[10] == ' '
              && Audit.Number(date[..4]) == CivilFromDays(epoch / 86_400).year
              && Audit.Number(date[5..7]) == CivilFromDays(epoch / 86_400).month
              && Audit.Number(date[8..]) == CivilFromDays(epoch / 86_400).day
              && epoch % 86_400 - 59 <= Audit.Number(time[..2]) * 3600 + Audit.Number(time[3..]) * 60 <= epoch % 86_400
  {
    if epoch > 0 {
      hide CivilFromDays, Audit.Number, Audit.CivilFromDays, Audit.PrintDate, Audit.PrintMinute, IsDate;
      var days := epoch / 86_400;
      CopiesAgree(days);
      Audit.SinceTheEpoch(days);
      Audit.DateReadsBack(CivilFromDays(days));
      Audit.MinuteReadsBack(epoch % 86_400);
      var date, time := Audit.PrintDate(CivilFromDays(days)), Audit.PrintMinute(epoch % 86_400);
      assert FmtTime(epoch) == date + " " + time;
      assert FmtTime(epoch)[..10] == date && FmtTime(epoch)[11..] == time;
    }
  }

  /** Both logs print any known second alike. */
  lemma LogsAgree(epoch: nat, ms: nat)
    requires epoch > 0 && ms < 1000
    ensures FmtTime(epoch) == Audit.FmtUtc(epoch * 1000 + ms)
  {
    CopiesAgree(epoch / 86_400);
    assert (epoch * 1000 + ms) / 1000 == epoch;
    hide CivilFromDays, Audit.CivilFromDays, Audit.PrintDate, Audit.PrintMinute;
  }
}
