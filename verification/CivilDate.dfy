/** Dates from seconds since 1970 (keepset.rs), against the Gregorian calendar's own rules. */
module CivilDate {
  import opened Common

  datatype Date = Date(year: int, month: int, day: int)

  datatype Stamp = Stamp(date: Date, hour: int, minute: int, second: int)

  // ---- the code ----

  /** Division that truncates toward zero. */
  function TruncDiv(a: int, b: int): int
    requires b > 0
  {
    if a >= 0 then a / b else -((-a) / b)
  }

  function YearOfEra(doe: int): int {
    (doe - doe / 1460 + doe / 36524 - doe / 146096) / 365
  }

  function DayOfYear(doe: int, yoe: int): int {
    doe - (365 * yoe + yoe / 4 - yoe / 100)
  }

  /** Day and month of a year that starts in March. */
  function FromMarch(year: int, doy: int): Date {
    var mp := (5 * doy + 2) / 153;
    var d := doy - (153 * mp + 2) / 5 + 1;
    var m := if mp < 10 then mp + 3 else mp - 9;
    Date(if m <= 2 then year + 1 else year, m, d)
  }

  function Era(z: int): int {
    TruncDiv(if z >= 0 then z else z - 146096, 146097)
  }

  function Civil(days: int): Date {
    var z := days + 719468;
    var era := Era(z);
    var doe := z - era * 146097;
    var yoe := YearOfEra(doe);
    FromMarch(yoe + era * 400, DayOfYear(doe, yoe))
  }

  function FromUnix(secs: int): Stamp {
    var tod := secs % 86400;
    Stamp(Civil(secs / 86400), tod / 3600, tod % 3600 / 60, tod % 60)
  }

  /** A FILETIME counts 100-nanosecond ticks since 1601; one that is missing or not positive has no date. */
  function FromFiletime(ft: Option<int>): Option<Stamp> {
    if ft.None? || ft.value <= 0 then None else Some(FromUnix(ft.value / 10_000_000 - 11_644_473_600))
  }

  // ---- the calendar ----

  predicate Leap(year: int) {
    year % 4 == 0 && (year % 100 != 0 || year % 400 == 0)
  }

  function LeapDay(year: int): int {
    if Leap(year) then 1 else 0
  }

  function DaysInMonth(year: int, month: int): int {
    if month == 2 then 28 + LeapDay(year)
    else if month == 4 || month == 6 || month == 9 || month == 11 then 30
    else 31
  }

  predicate ValidDate(date: Date) {
    1 <= date.month <= 12 && 1 <= date.day <= DaysInMonth(date.year, date.month)
  }

  predicate ValidStamp(t: Stamp) {
    ValidDate(t.date) && 0 <= t.hour < 24 && 0 <= t.minute < 60 && 0 <= t.second < 60
  }

  /** The day after, by the calendar. */
  function Tomorrow(date: Date): Date {
    if date.day < DaysInMonth(date.year, date.month) then date.(day := date.day + 1)
    else if date.month < 12 then Date(date.year, date.month + 1, 1)
    else Date(date.year + 1, 1, 1)
  }

  predicate Before(a: Date, b: Date) {
    a.year < b.year || (a.year == b.year && (a.month < b.month || (a.month == b.month && a.day < b.day)))
  }

  /** Days from the first of January of year 1 to the first of January of a year, counted year by year. */
  function DaysBeforeYear(year: int): int
    decreases if year >= 1 then year - 1 else 1 - year
  {
    if year == 1 then 0
    else if year > 1 then DaysBeforeYear(year - 1) + 365 + LeapDay(year - 1)
    else DaysBeforeYear(year + 1) - 365 - LeapDay(year)
  }

  function DaysBeforeMonth(year: int, month: int): int {
    if month <= 1 then 0 else DaysBeforeMonth(year, month - 1) + DaysInMonth(year, month - 1)
  }

  /** The day number of a date; 1970-01-01 is 0. */
  function DaysFromCivil(date: Date): int {
    DaysBeforeYear(date.year) + DaysBeforeMonth(date.year, date.month) + date.day - 1 - 719162
  }

  function ToUnix(t: Stamp): int {
    DaysFromCivil(t.date) * 86400 + t.hour * 3600 + t.minute * 60 + t.second
  }

  // ---- eras, years and months ----

  lemma EraIsFloor(z: int)
    ensures 0 <= z - Era(z) * 146097 < 146097
  {
    if z < 0 {
      var w := 146096 - z;
      assert w == 146097 * (w / 146097) + w % 146097;
    }
  }

  /** A day of a 400-year era lies in century b, cycle q and year s of the cycle, counted from March. */
  predicate Position(doe: int, b: int, q: int, s: int, doy: int) {
    && doe == 36524 * b + 1461 * q + 365 * s + doy
    && 0 <= b < 4 && 0 <= q < 25 && 0 <= s < 4 && 0 <= doy
    && (doy < 365 || (doy == 365 && s == 3 && (q < 24 || b == 3)))
  }

  lemma Locate(doe: int) returns (b: int, q: int, s: int, doy: int)
    requires 0 <= doe < 146097
    ensures Position(doe, b, q, s, doy)
  {
    b := if doe / 36524 < 4 then doe / 36524 else 3;
    var r := doe - 36524 * b;
    q := r / 1461;
    var t := r - 1461 * q;
    s := if t / 365 < 4 then t / 365 else 3;
    doy := t - 365 * s;
  }

  /** The closed formula finds the year: its leap-day correction is off by one only where that cannot matter. */
  lemma YearFound(doe: int, b: int, q: int, s: int, doy: int)
    requires Position(doe, b, q, s, doy)
    ensures YearOfEra(doe) == 100 * b + 4 * q + s
  {
    var rest := 24 * b + q + 365 * s + doy;
    var e := if rest < 1460 then 0 else 1;
    assert doe == 1460 * (25 * b + q + e) + (rest - 1460 * e);
    assert doe / 1460 == 25 * b + q + e;
    var last := if doe == 146096 then 1 else 0;
    assert doe / 36524 == b + last && doe / 146096 == last;
    assert doe - doe / 1460 + doe / 36524 - doe / 146096 == 365 * (100 * b + 4 * q + s) + (doy - e);
  }

  lemma DayFound(doe: int, b: int, q: int, s: int, doy: int)
    requires Position(doe, b, q, s, doy)
    ensures DayOfYear(doe, YearOfEra(doe)) == doy
  {
    YearFound(doe, b, q, s, doy);
    var yoe := 100 * b + 4 * q + s;
    assert yoe / 4 == 25 * b + q && yoe / 100 == b;
  }

  /** The year that follows 400 era + yoe is a leap year when yoe ends a full cycle. */
  lemma CycleEndsLeap(era: int, b: int, q: int, year: int)
    requires 0 <= b < 4 && 0 <= q < 25 && (q < 24 || b == 3) && year == 400 * era + 100 * b + 4 * q + 4
    ensures Leap(year)
  {
    assert year == 4 * (100 * era + 25 * b + q + 1);
    if q < 24 {
      assert year == 100 * (4 * era + b) + (4 * q + 4);
    } else {
      assert year == 400 * (era + 1);
    }
  }

  /** Days before the first of March, and before each month, of a year. */
  lemma MonthStarts(year: int)
    ensures DaysBeforeMonth(year, 1) == 0 && DaysBeforeMonth(year, 2) == 31
    ensures forall m | 3 <= m <= 12 :: DaysBeforeMonth(year, m) == 59 + LeapDay(year) + (153 * (m - 3) + 2) / 5
  {
    var leap := LeapDay(year);
    assert DaysBeforeMonth(year, 1) == 0;
    assert DaysBeforeMonth(year, 2) == 31;
    assert DaysBeforeMonth(year, 3) == 59 + leap;
    assert DaysBeforeMonth(year, 4) == 90 + leap;
    assert DaysBeforeMonth(year, 5) == 120 + leap;
    assert DaysBeforeMonth(year, 6) == 151 + leap;
    assert DaysBeforeMonth(year, 7) == 181 + leap;
    assert DaysBeforeMonth(year, 8) == 212 + leap;
    assert DaysBeforeMonth(year, 9) == 243 + leap;
    assert DaysBeforeMonth(year, 10) == 273 + leap;
    assert DaysBeforeMonth(year, 11) == 304 + leap;
    assert DaysBeforeMonth(year, 12) == 334 + leap;
  }

  /** A quotient goes up by one exactly when the number becomes a multiple. */
  lemma QuotientStep4(y: int)
    ensures (y + 1) / 4 == y / 4 + (if (y + 1) % 4 == 0 then 1 else 0)
  {
    var q, r := y / 4, y % 4;
    assert y + 1 == 4 * q + (r + 1);
  }

  lemma QuotientStep100(y: int)
    ensures (y + 1) / 100 == y / 100 + (if (y + 1) % 100 == 0 then 1 else 0)
  {
    var q, r := y / 100, y % 100;
    assert y + 1 == 100 * q + (r + 1);
  }

  lemma QuotientStep400(y: int)
    ensures (y + 1) / 400 == y / 400 + (if (y + 1) % 400 == 0 then 1 else 0)
  {
    var q, r := y / 400, y % 400;
    assert y + 1 == 400 * q + (r + 1);
  }

  /** Multiples of 400 are multiples of 100, and those of 4. */
  lemma Multiples(y: int)
    ensures y % 400 == 0 ==> y % 100 == 0
    ensures y % 100 == 0 ==> y % 4 == 0
  {
    MultiplesOf400(y, y / 400);
    MultiplesOf100(y, y / 100);
  }

  lemma MultiplesOf400(y: int, q: int)
    ensures y == 400 * q ==> y % 100 == 0
  {
    assert 400 * q == 100 * (4 * q);
  }

  lemma MultiplesOf100(y: int, q: int)
    ensures y == 100 * q ==> y % 4 == 0
  {
    assert 100 * q == 4 * (25 * q);
  }

  lemma YearLength(year: int)
    ensures DaysBeforeYear(year + 1) == DaysBeforeYear(year) + 365 + LeapDay(year)
  {
  }

  /** The usual closed form, in the number of whole years before. */
  function ClosedForm(y: int): int {
    365 * y + y / 4 - y / 100 + y / 400
  }

  lemma ClosedFormStep(y: int)
    ensures ClosedForm(y + 1) == ClosedForm(y) + 365 + LeapDay(y + 1)
  {
    QuotientStep4(y);
    QuotientStep100(y);
    QuotientStep400(y);
    Multiples(y + 1);
  }

  lemma {:induction false} DaysBeforeYearIs(year: int)
    ensures DaysBeforeYear(year) == ClosedForm(year - 1)
    decreases if year >= 1 then year - 1 else 1 - year
  {
    if year > 1 {
      DaysBeforeYearIs(year - 1);
      ClosedFormStep(year - 2);
    } else if year < 1 {
      DaysBeforeYearIs(year + 1);
      ClosedFormStep(year - 1);
    }
  }

  /** Counting from March, a year's days fall into valid dates, in the order of the calendar. */
  lemma FromMarchIs(year: int, doy: int)
    requires 0 <= doy < 365 + LeapDay(year + 1)
    ensures ValidDate(FromMarch(year, doy))
    ensures DaysFromCivil(FromMarch(year, doy)) == DaysBeforeYear(year + 1) - 306 + doy - 719162
  {
    var mp := (5 * doy + 2) / 153;
    MonthStarts(year);
    MonthStarts(year + 1);
    YearLength(year);
    assert 0 <= mp < 12;
  }

  lemma WithinYear(date: Date)
    requires ValidDate(date)
    ensures 0 <= DaysBeforeMonth(date.year, date.month) + date.day - 1 < 365 + LeapDay(date.year)
  {
    MonthStarts(date.year);
  }

  lemma EarlierMonth(year: int, m: int, later: int)
    requires 1 <= m < later <= 12
    ensures DaysBeforeMonth(year, m) + DaysInMonth(year, m) <= DaysBeforeMonth(year, later)
    decreases later
  {
    if m < later - 1 {
      EarlierMonth(year, m, later - 1);
    }
  }

  lemma EarlierYear(year: int, later: int)
    requires year <= later
    ensures DaysBeforeYear(year) <= DaysBeforeYear(later)
    decreases later - year
  {
    if year < later {
      EarlierYear(year, later - 1);
      YearLength(later - 1);
    }
  }

  // ---- the theorems ----

  /** The day at a position of an era is a valid date. */
  lemma PositionValid(era: int, doe: int, b: int, q: int, s: int, doy: int, year: int)
    requires Position(doe, b, q, s, doy) && year == 100 * b + 4 * q + s + era * 400
    ensures ValidDate(FromMarch(year, doy))
  {
    LongYear(era, doe, b, q, s, doy, year + 1);
    FromMarchIs(year, doy);
  }

  /** And its day number is the position's. */
  lemma PositionDays(era: int, doe: int, b: int, q: int, s: int, doy: int, year: int)
    requires Position(doe, b, q, s, doy) && year == 100 * b + 4 * q + s + era * 400
    ensures DaysFromCivil(FromMarch(year, doy)) == 146097 * era + doe - 719468
  {
    LongYear(era, doe, b, q, s, doy, year + 1);
    YearDays(era, doe, b, q, s, doy, year + 1);
    DayAt(year, doy, 146097 * era + doe);
  }

  lemma DayAt(year: int, doy: int, total: int)
    requires 0 <= doy < 365 + LeapDay(year + 1) && DaysBeforeYear(year + 1) + doy == total
    ensures DaysFromCivil(FromMarch(year, doy)) == total - 719468
  {
    FromMarchIs(year, doy);
  }

  lemma YearDays(era: int, doe: int, b: int, q: int, s: int, doy: int, next: int)
    requires Position(doe, b, q, s, doy) && next == 400 * era + 100 * b + 4 * q + s + 1
    ensures DaysBeforeYear(next) + doy == 146097 * era + doe
  {
    YearsBefore(era, b, q, s, next);
    AddDays(era, doe, b, q, s, doy, DaysBeforeYear(next));
  }

  lemma AddDays(era: int, doe: int, b: int, q: int, s: int, doy: int, days: int)
    requires Position(doe, b, q, s, doy) && days == 146097 * era + 36524 * b + 1461 * q + 365 * s
    ensures days + doy == 146097 * era + doe
  {
  }

  lemma LongYear(era: int, doe: int, b: int, q: int, s: int, doy: int, next: int)
    requires Position(doe, b, q, s, doy) && next == 100 * b + 4 * q + s + era * 400 + 1
    ensures 0 <= doy < 365 + LeapDay(next)
  {
    if doy == 365 {
      CycleEndsLeap(era, b, q, next);
    }
  }

  lemma CivilAt(days: int, era: int, doe: int, b: int, q: int, s: int, doy: int, year: int)
    requires era == Era(days + 719468) && doe == days + 719468 - era * 146097 && Position(doe, b, q, s, doy)
    requires year == 100 * b + 4 * q + s + era * 400
    ensures Civil(days) == FromMarch(year, doy)
  {
    YearFound(doe, b, q, s, doy);
    DayFound(doe, b, q, s, doy);
  }

  /** Every day number becomes a valid date whose independently counted day number it is. */
  lemma CivilMeans(days: int)
    ensures ValidDate(Civil(days)) && DaysFromCivil(Civil(days)) == days
  {
    EraIsFloor(days + 719468);
    var era := Era(days + 719468);
    var doe := days + 719468 - era * 146097;
    var b, q, s, doy := Locate(doe);
    var year := 100 * b + 4 * q + s + era * 400;
    CivilAt(days, era, doe, b, q, s, doy, year);
    PositionValid(era, doe, b, q, s, doy, year);
    PositionDays(era, doe, b, q, s, doy, year);
  }

  lemma YearsBefore(era: int, b: int, q: int, s: int, next: int)
    requires 0 <= b < 4 && 0 <= q < 25 && 0 <= s < 4 && next == 400 * era + 100 * b + 4 * q + s + 1
    ensures DaysBeforeYear(next) == 146097 * era + 36524 * b + 1461 * q + 365 * s
  {
    DaysBeforeYearIs(next);
    ClosedFormAt(era, b, q, s, next - 1);
  }

  lemma ClosedFormAt(era: int, b: int, q: int, s: int, y: int)
    requires 0 <= b < 4 && 0 <= q < 25 && 0 <= s < 4 && y == 400 * era + 100 * b + 4 * q + s
    ensures ClosedForm(y) == 146097 * era + 36524 * b + 1461 * q + 365 * s
  {
    assert y / 4 == 100 * era + 25 * b + q;
    assert y / 100 == 4 * era + b;
    assert y / 400 == era;
  }

  /** Earlier dates have smaller day numbers. */
  lemma DaysIncrease(a: Date, b: Date)
    requires ValidDate(a) && ValidDate(b) && Before(a, b)
    ensures DaysFromCivil(a) < DaysFromCivil(b)
  {
    if a.year < b.year {
      WithinYear(a);
      WithinYear(b);
      YearLength(a.year);
      EarlierYear(a.year + 1, b.year);
    } else if a.month < b.month {
      EarlierMonth(a.year, a.month, b.month);
    }
  }

  /** The other direction of the round trip: every valid date is the date of its day number. */
  lemma CivilOfDate(date: Date, days: int)
    requires ValidDate(date) && DaysFromCivil(date) == days
    ensures Civil(days) == date
  {
    CivilMeans(days);
    SameDay(Civil(days), date);
  }

  lemma SameDay(a: Date, b: Date)
    requires ValidDate(a) && ValidDate(b) && DaysFromCivil(a) == DaysFromCivil(b)
    ensures a == b
  {
    if Before(a, b) {
      DaysIncrease(a, b);
    } else if Before(b, a) {
      DaysIncrease(b, a);
    }
  }

  /** Later days are later dates. */
  lemma CivilIncreases(a: int, b: int)
    requires a < b
    ensures Before(Civil(a), Civil(b))
  {
    CivilMeans(a);
    CivilMeans(b);
    if Before(Civil(b), Civil(a)) {
      DaysIncrease(Civil(b), Civil(a));
    }
  }

  lemma TomorrowIsNext(date: Date)
    requires ValidDate(date)
    ensures ValidDate(Tomorrow(date)) && DaysFromCivil(Tomorrow(date)) == DaysFromCivil(date) + 1
  {
    YearLength(date.year);
    MonthStarts(date.year);
  }

  lemma Epoch()
    ensures DaysFromCivil(Date(1970, 1, 1)) == 0
  {
    FirstOfJanuary(1970, 1969);
  }

  lemma Epoch1601()
    ensures DaysFromCivil(Date(1601, 1, 1)) == -134774
  {
    FirstOfJanuary(1601, 1600);
  }

  lemma FirstOfJanuary(year: int, y: int)
    requires y == year - 1
    ensures DaysFromCivil(Date(year, 1, 1)) == ClosedForm(y) - 719162
  {
    DaysBeforeYearIs(year);
  }

  /** The calendar itself: day 0 is 1970-01-01, and each day is followed by tomorrow. */
  lemma CivilFollowsCalendar(days: int)
    ensures Civil(0) == Date(1970, 1, 1) && Civil(days + 1) == Tomorrow(Civil(days))
  {
    Epoch();
    CivilOfDate(Date(1970, 1, 1), 0);
    CivilMeans(days);
    DayAfter(Civil(days), days);
  }

  lemma DayAfter(today: Date, days: int)
    requires ValidDate(today) && DaysFromCivil(today) == days
    ensures Civil(days + 1) == Tomorrow(today)
  {
    TomorrowIsNext(today);
    CivilOfDate(Tomorrow(today), days + 1);
  }

  /** Every number of seconds becomes a valid time stamp that counts back to it. */
  lemma StampMeans(secs: int)
    ensures ValidStamp(FromUnix(secs)) && ToUnix(FromUnix(secs)) == secs
  {
    CivilMeans(secs / 86400);
    ClockMeans(Civil(secs / 86400), secs / 86400, secs % 86400);
  }

  lemma ClockMeans(date: Date, days: int, tod: int)
    requires ValidDate(date) && DaysFromCivil(date) == days && 0 <= tod < 86400
    ensures var stamp := Stamp(date, tod / 3600, tod % 3600 / 60, tod % 60);
            ValidStamp(stamp) && ToUnix(stamp) == days * 86400 + tod
  {
    assert tod % 60 == tod % 3600 % 60;
  }

  /** Nothing is dated before 1601 that is not earlier than it in seconds. */
  lemma YearFrom1601(secs: int)
    requires secs >= -11_644_473_600
    ensures FromUnix(secs).date.year >= 1601
  {
    var date := Civil(secs / 86400);
    CivilMeans(secs / 86400);
    Epoch1601();
    assert secs / 86400 >= -134774;
    if date.year < 1601 {
      DaysIncrease(date, Date(1601, 1, 1));
    }
  }

  lemma WholeSeconds(ft: int, secs: int)
    requires secs == ft / 10_000_000 - 11_644_473_600
    ensures ft > 0 ==> secs >= -11_644_473_600
    ensures (secs + 11_644_473_600) * 10_000_000 <= ft < (secs + 11_644_473_601) * 10_000_000
  {
  }

  /** A FILETIME has a date exactly when it is positive: no earlier than 1601, and right to the second. */
  lemma FiletimeMeans(ft: Option<int>)
    ensures FromFiletime(ft).Some? <==> ft.Some? && ft.value > 0
    ensures FromFiletime(ft).Some? ==>
              var stamp := FromFiletime(ft).value;
              && ValidStamp(stamp) && stamp.date.year >= 1601
              && (ToUnix(stamp) + 11_644_473_600) * 10_000_000 <= ft.value < (ToUnix(stamp) + 11_644_473_601) * 10_000_000
  {
    if FromFiletime(ft).Some? {
      var secs := ft.value / 10_000_000 - 11_644_473_600;
      WholeSeconds(ft.value, secs);
      StampMeans(secs);
      YearFrom1601(secs);
    }
  }
}
