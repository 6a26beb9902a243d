/** The build stamp of apps/desktop/src-tauri/build.rs: seconds since the epoch as a civil date and time. */
module CivilDate {

  datatype Date = Date(year: int, month: int, day: int)

  datatype Stamp = Stamp(date: Date, hour: nat, minute: nat, second: nat)

  const SECONDS_PER_DAY := 86_400
  const DAYS_PER_ERA := 146_097

  // ---------------------------------------------------------------------------------------------
  // The calendar, day by day
  // ---------------------------------------------------------------------------------------------

  /** Appendix C of RFC 3339. */
  predicate IsLeap(year: int) { year % 4 == 0 && (year % 100 != 0 || year % 400 == 0) }

  function DaysIn(year: int, month: int): int {
    if month == 2 then (if IsLeap(year) then 29 else 28)
    else if month == 4 || month == 6 || month == 9 || month == 11 then 30
    else 31
  }

  predicate IsDate(d: Date) { 1 <= d.month <= 12 && 1 <= d.day <= DaysIn(d.year, d.month) }

  function NextDay(d: Date): Date {
    if d.day < DaysIn(d.year, d.month) then d.(day := d.day + 1)
    else if d.month < 12 then Date(d.year, d.month + 1, 1)
    else Date(d.year + 1, 1, 1)
  }

  /** The date `n` days after 1970-01-01. */
  function DayByDay(n: nat): Date {
    if n == 0 then Date(1970, 1, 1) else NextDay(DayByDay(n - 1))
  }

  // ---------------------------------------------------------------------------------------------
  // The algorithm
  // ---------------------------------------------------------------------------------------------

  function YearOfEra(doe: int): int { (doe - doe / 1460 + doe / 36_524 - doe / 146_096) / 365 }

  /** The month and day of the `doy`-th day of a year that begins in March. */
  function MarchDate(marchYear: int, doy: int): Date {
    var mp := (5 * doy + 2) / 153;
    var d := doy - (153 * mp + 2) / 5 + 1;
    var m := if mp < 10 then mp + 3 else mp - 9;
    Date(if m <= 2 then marchYear + 1 else marchYear, m, d)
  }

  /** The civil date `z` days after 0000-03-01. */
  function Civil(z: int): Date {
    var era := z / DAYS_PER_ERA;
    var doe := z % DAYS_PER_ERA;
    var yoe := YearOfEra(doe);
    MarchDate(yoe + era * 400, doe - (365 * yoe + yoe / 4 - yoe / 100))
  }

  const EPOCH := 719_468

  /** The civil date of a day counted from 1970-01-01. */
  function UnixCivil(n: nat): Date { Civil(n + EPOCH) }

  /** `build_timestamp`, but for the text. */
  function BuildTimestamp(secs: nat): Stamp {
    var days, rem := secs / SECONDS_PER_DAY, secs % SECONDS_PER_DAY;
    Stamp(UnixCivil(days), rem / 3600, rem % 3600 / 60, rem % 60)
  }

  // ---------------------------------------------------------------------------------------------
  // Years of an era
  // ---------------------------------------------------------------------------------------------

  /** The day of the era on which its year `y` begins, in March; year 400 begins the next era. */
  function YearStart(y: int): int { if y == 400 then DAYS_PER_ERA else 365 * y + y / 4 - y / 100 }

  /** A day as centuries, four-year spans and days: the last year of each span takes the leap day. */
  lemma EstimateIsExact(c: int, q: int, s: int)
    requires 0 <= c <= 3 && 0 <= q <= 24 && 0 <= s <= 1460
    requires q == 24 && s == 1460 ==> c == 3
    ensures var doe := 36_524 * c + 1461 * q + s;
      YearOfEra(doe) == 100 * c + 4 * q + (if s == 1460 then 3 else s / 365)
  {
    var doe := 36_524 * c + 1461 * q + s;
    var extra := if 24 * c + q + s >= 1460 then 1 else 0;
    assert doe / 36_524 - doe / 146_096 == c;
    assert doe == 1460 * (25 * c + q) + (24 * c + q + s);
    assert doe / 1460 == 25 * c + q + extra;
    assert doe - doe / 1460 + doe / 36_524 - doe / 146_096 == 365 * (100 * c + 4 * q) + (s - extra);
    assert (s - extra) / 365 == if s == 1460 then 3 else s / 365;
  }

  lemma Spans(doe: int) returns (c: int, q: int, s: int)
    requires 0 <= doe < DAYS_PER_ERA
    ensures 0 <= c <= 3 && 0 <= q <= 24 && 0 <= s <= 1460 && (q == 24 && s == 1460 ==> c == 3)
    ensures doe == 36_524 * c + 1461 * q + s
  {
    c := if doe == 146_096 then 3 else doe / 36_524;
    var r := doe - 36_524 * c;
    q, s := r / 1461, r % 1461;
  }

  lemma SpanStart(c: int, q: int, t: int)
    requires 0 <= c <= 3 && 0 <= q <= 24 && 0 <= t <= 3
    ensures YearStart(100 * c + 4 * q + t) == 36_524 * c + 1461 * q + 365 * t
  {
    var y := 100 * c + 4 * q + t;
    assert y / 100 == c && y / 4 == 25 * c + q;
  }

  lemma SpanEnd(c: int, q: int)
    requires 0 <= c <= 3 && 0 <= q <= 24
    ensures YearStart(100 * c + 4 * q + 4) == 36_524 * c + 1461 * q + (if q == 24 && c < 3 then 1460 else 1461)
  {
    if q < 24 { SpanStart(c, q + 1, 0); } else if c < 3 { SpanStart(c + 1, 0, 0); }
  }

  /** The estimated year of the era is the one the day falls in. */
  lemma YearOfEraContains(doe: int)
    requires 0 <= doe < DAYS_PER_ERA
    ensures 0 <= YearOfEra(doe) < 400
    ensures YearStart(YearOfEra(doe)) <= doe < YearStart(YearOfEra(doe) + 1)
  {
    var c, q, s := Spans(doe);
    EstimateIsExact(c, q, s);
    var t := if s == 1460 then 3 else s / 365;
    SpanStart(c, q, t);
    if t == 3 { SpanEnd(c, q); } else { SpanStart(c, q, t + 1); }
  }

  lemma YearsFollow(a: int, b: int)
    requires 0 <= a < b <= 400
    ensures YearStart(a + 1) <= YearStart(b)
  {
    var k := b - (a + 1);
    assert b / 100 <= (a + 1) / 100 + k / 100 + 1;
  }

  /** So a day is in one year only. */
  lemma YearIs(doe: int, y: int)
    requires 0 <= doe < DAYS_PER_ERA && 0 <= y < 400 && YearStart(y) <= doe < YearStart(y + 1)
    ensures YearOfEra(doe) == y
  {
    YearOfEraContains(doe);
    var e := YearOfEra(doe);
    if e < y { YearsFollow(e, y); } else if y < e { YearsFollow(y, e); }
  }

  lemma SameMod4(n: int, era: int)
    ensures (n + 400 * era) % 4 == n % 4
  {
    assert n + 400 * era == 4 * (n / 4 + 100 * era) + n % 4;
  }

  lemma SameMod100(n: int, era: int)
    ensures (n + 400 * era) % 100 == n % 100
  {
    assert n + 400 * era == 100 * (n / 100 + 4 * era) + n % 100;
  }

  lemma SameMod400(n: int, era: int)
    ensures (n + 400 * era) % 400 == n % 400
  {
    assert n + 400 * era == 400 * (n / 400 + era) + n % 400;
  }

  lemma ErasKeepLeapYears(n: int, era: int, m: int)
    requires m == n + 400 * era
    ensures IsLeap(m) <==> IsLeap(n)
  {
    SameMod4(n, era);
    SameMod100(n, era);
    SameMod400(n, era);
  }

  /** A year that begins in March ends with the February of the next civil year. */
  lemma YearLength(y: int)
    requires 0 <= y < 400
    ensures YearStart(y + 1) - YearStart(y) == if IsLeap(y + 1) then 366 else 365
  {
    var n := y + 1;
    assert n / 4 - y / 4 == if n % 4 == 0 then 1 else 0;
    assert n / 100 - y / 100 == if n % 100 == 0 then 1 else 0;
  }

  // ---------------------------------------------------------------------------------------------
  // Days of a year
  // ---------------------------------------------------------------------------------------------

  function MonthStart(mp: int): int { (153 * mp + 2) / 5 }

  lemma MonthContains(doy: int)
    requires 0 <= doy <= 365
    ensures var mp := (5 * doy + 2) / 153; 0 <= mp <= 11 && MonthStart(mp) <= doy < MonthStart(mp + 1)
  {
  }

  function MonthOf(mp: int): int { if mp < 10 then mp + 3 else mp - 9 }

  lemma MonthLength(mp: int, year: int)
    requires 0 <= mp <= 10
    ensures MonthStart(mp + 1) - MonthStart(mp) == DaysIn(year, MonthOf(mp))
  {
  }

  lemma DateInMonth(marchYear: int, doy: int, mp: int)
    requires 0 <= mp <= 11 && MonthStart(mp) <= doy < MonthStart(mp + 1)
    ensures MarchDate(marchYear, doy)
      == Date(if mp < 10 then marchYear else marchYear + 1, MonthOf(mp), doy - MonthStart(mp) + 1)
  {
    assert (5 * doy + 2) / 153 == mp;
  }

  /** Within a year the date moves on by one day. */
  lemma NextInYear(marchYear: int, doy: int)
    requires 0 <= doy && doy + 1 < (if IsLeap(marchYear + 1) then 366 else 365)
    ensures IsDate(MarchDate(marchYear, doy))
    ensures MarchDate(marchYear, doy + 1) == NextDay(MarchDate(marchYear, doy))
  {
    MonthContains(doy);
    var mp := (5 * doy + 2) / 153;
    DateInMonth(marchYear, doy, mp);
    if mp < 11 { MonthLength(mp, if mp < 10 then marchYear else marchYear + 1); }
    DateInMonth(marchYear, doy + 1, if doy + 1 < MonthStart(mp + 1) then mp else mp + 1);
  }

  /** After the last of February comes the first of March. */
  lemma NextYear(marchYear: int, doy: int)
    requires doy + 1 == (if IsLeap(marchYear + 1) then 366 else 365)
    ensures IsDate(MarchDate(marchYear, doy))
    ensures MarchDate(marchYear + 1, 0) == NextDay(MarchDate(marchYear, doy))
  {
  }

  /** A day by its era, year of the era and day of the year. */
  datatype Place = Place(era: int, year: int, day: int) {
    ghost predicate Valid() { 0 <= year < 400 && 0 <= day < YearStart(year + 1) - YearStart(year) }
    function Number(): int { DAYS_PER_ERA * era + YearStart(year) + day }
    function Year(): int { year + era * 400 }
    function Date(): Date { MarchDate(Year(), day) }
    function NextPlace(): Place {
      if day + 1 < YearStart(year + 1) - YearStart(year) then Place(era, year, day + 1)
      else if year < 399 then Place(era, year + 1, 0)
      else Place(era + 1, 0, 0)
    }
  }

  lemma DayIsInEra(y: int, day: int)
    requires 0 <= y < 400 && 0 <= day < YearStart(y + 1) - YearStart(y)
    ensures 0 <= YearStart(y) + day < DAYS_PER_ERA
  {
    if y < 399 { YearsFollow(y, 400); YearsFollow(y + 1, 400); }
    if y > 0 { YearsFollow(0, y); }
  }

  /** The algorithm finds the place of a day. */
  lemma CivilAt(z: int, p: Place)
    requires p.Valid() && z == p.Number()
    ensures Civil(z) == p.Date()
  {
    var doe := YearStart(p.year) + p.day;
    DayIsInEra(p.year, p.day);
    YearIs(doe, p.year);
    assert z / DAYS_PER_ERA == p.era && z % DAYS_PER_ERA == doe;
  }

  lemma PlaceOf(z: int) returns (p: Place)
    ensures p.Valid() && z == p.Number()
  {
    var doe := z % DAYS_PER_ERA;
    YearOfEraContains(doe);
    p := Place(z / DAYS_PER_ERA, YearOfEra(doe), doe - YearStart(YearOfEra(doe)));
  }

  lemma NextPlaceIsNext(p: Place)
    requires p.Valid()
    ensures p.NextPlace().Valid() && p.NextPlace().Number() == p.Number() + 1
  {
    YearLength(p.year);
    if p.year < 399 { YearLength(p.year + 1); } else { YearLength(0); }
  }

  lemma PlaceYearLength(p: Place)
    requires p.Valid()
    ensures YearStart(p.year + 1) - YearStart(p.year) == if IsLeap(p.Year() + 1) then 366 else 365
  {
    YearLength(p.year);
    ErasKeepLeapYears(p.year + 1, p.era, p.Year() + 1);
  }

  lemma NextPlaceIsNextDay(p: Place)
    requires p.Valid()
    ensures IsDate(p.Date()) && p.NextPlace().Date() == NextDay(p.Date())
  {
    PlaceYearLength(p);
    if p.day + 1 < YearStart(p.year + 1) - YearStart(p.year) {
      NextInYear(p.Year(), p.day);
    } else {
      NextYear(p.Year(), p.day);
      assert p.NextPlace().Year() == p.Year() + 1;
    }
  }

  /** One day later, one day on. */
  lemma NextCivil(z: int)
    ensures IsDate(Civil(z)) && Civil(z + 1) == NextDay(Civil(z))
  {
    var p := PlaceOf(z);
    CivilAt(z, p);
    NextPlaceIsNext(p);
    CivilAt(z + 1, p.NextPlace());
    NextPlaceIsNextDay(p);
  }

  // ---------------------------------------------------------------------------------------------
  // The stamp
  // ---------------------------------------------------------------------------------------------

  lemma EpochIsCivil()
    ensures UnixCivil(0) == Date(1970, 1, 1)
  {
    CivilAt(EPOCH, Place(4, 369, 306));
  }

  lemma NextUnixCivil(n: nat)
    ensures IsDate(UnixCivil(n)) && UnixCivil(n + 1) == NextDay(UnixCivil(n))
  {
    NextCivil(n + EPOCH);
    assert n + 1 + EPOCH == n + EPOCH + 1;
  }

  /** The computed date is the one reached by stepping day by day from 1970-01-01. */
  lemma {:induction false} CivilIsDayByDay(n: nat)
    ensures UnixCivil(n) == DayByDay(n) && IsDate(DayByDay(n))
  {
    NextUnixCivil(n);
    if n == 0 {
      EpochIsCivil();
    } else {
      CivilIsDayByDay(n - 1);
      NextUnixCivil(n - 1);
    }
  }

  lemma TimeOfDay(rem: nat)
    requires rem < SECONDS_PER_DAY
    ensures rem / 3600 < 24 && rem % 3600 / 60 < 60 && rem % 60 < 60
    ensures rem == rem / 3600 * 3600 + rem % 3600 / 60 * 60 + rem % 60
  {
    var h, r := rem / 3600, rem % 3600;
    assert rem == 60 * (60 * h + r / 60) + r % 60;
  }

  /** For every second count: the right date, every field in its range, and the seconds recovered from them. */
  lemma StampIsRight(secs: nat, s: Stamp)
    requires s == BuildTimestamp(secs)
    ensures IsDate(s.date) && s.date == DayByDay(secs / SECONDS_PER_DAY)
    ensures 1 <= s.date.month <= 12 && 1 <= s.date.day <= 31
    ensures s.hour < 24 && s.minute < 60 && s.second < 60
    ensures secs == secs / SECONDS_PER_DAY * SECONDS_PER_DAY + s.hour * 3600 + s.minute * 60 + s.second
  {
    CivilIsDayByDay(secs / SECONDS_PER_DAY);
    TimeOfDay(secs % SECONDS_PER_DAY);
  }

  predicate Before(a: Date, b: Date) {
    a.year < b.year || (a.year == b.year && (a.month < b.month || (a.month == b.month && a.day < b.day)))
  }

  lemma NextDayIsLater(n: nat)
    ensures Before(DayByDay(n), DayByDay(n + 1))
  {
    CivilIsDayByDay(n);
  }

  /** Later days have later dates, so no two second counts of different days share a date. */
  lemma {:induction false} DatesIncrease(m: nat, n: nat)
    requires m < n
    ensures Before(DayByDay(m), DayByDay(n))
    decreases n
  {
    NextDayIsLater(n - 1);
    if m < n - 1 { DatesIncrease(m, n - 1); }
  }

  const LAST_FOUR_DIGIT_DAY := 2_932_896

  lemma LastFourDigitCivil()
    ensures UnixCivil(LAST_FOUR_DIGIT_DAY) == Date(9999, 12, 31)
  {
    CivilAt(LAST_FOUR_DIGIT_DAY + EPOCH, Place(24, 399, 305));
  }

  lemma LastFourDigitDay()
    ensures DayByDay(LAST_FOUR_DIGIT_DAY) == Date(9999, 12, 31)
    ensures DayByDay(LAST_FOUR_DIGIT_DAY + 1).year == 10_000
  {
    LastFourDigitCivil();
    CivilIsDayByDay(LAST_FOUR_DIGIT_DAY);
  }

  lemma YearsOfDays(n: nat)
    ensures 1970 <= DayByDay(n).year
    ensures DayByDay(n).year <= 9999 <==> n <= LAST_FOUR_DIGIT_DAY
  {
    LastFourDigitDay();
    if n > 0 { DatesIncrease(0, n); }
    if n < LAST_FOUR_DIGIT_DAY { DatesIncrease(n, LAST_FOUR_DIGIT_DAY); }
    if n > LAST_FOUR_DIGIT_DAY + 1 { DatesIncrease(LAST_FOUR_DIGIT_DAY + 1, n); }
  }

  /** The year has the four digits section 5.6 of RFC 3339 asks for exactly before this second. */
  lemma FourDigitYears(secs: nat, s: Stamp)
    requires s == BuildTimestamp(secs)
    ensures 1970 <= s.date.year
    ensures s.date.year <= 9999 <==> secs < 253_402_300_800
  {
    StampIsRight(secs, s);
    YearsOfDays(secs / SECONDS_PER_DAY);
  }
}
