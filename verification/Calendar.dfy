/** Dates from epoch days: the division formula of `civil_from_days` against the Gregorian
    calendar counted day by day. */
module Calendar {

  datatype Date = Date(year: nat, month: nat, day: nat)

  // ---- the simple calendar ----

  predicate IsLeap(year: nat) {
    year % 4 == 0 && (year % 100 != 0 || year % 400 == 0)
  }

  function DaysInMonth(year: nat, month: nat): nat {
    if month == 2 then (if IsLeap(year) then 29 else 28)
    else if month == 4 || month == 6 || month == 9 || month == 11 then 30
    else 31
  }

  predicate ValidDate(d: Date) {
    1 <= d.month <= 12 && 1 <= d.day <= DaysInMonth(d.year, d.month)
  }

  function NextDay(d: Date): Date {
    if d.day < DaysInMonth(d.year, d.month) then d.(day := d.day + 1)
    else if d.month < 12 then Date(d.year, d.month + 1, 1)
    else Date(d.year + 1, 1, 1)
  }

  /** The date `days` days after 1970-01-01, counted one by one. */
  function DateAfter(days: nat): Date {
    if days == 0 then Date(1970, 1, 1) else NextDay(DateAfter(days - 1))
  }

  /** How many days a date lies after 1970-01-01: whole years, whole months, days. */
  function DaysSinceEpoch(d: Date): int
    requires d.year >= 1970
  {
    YearsBefore(d.year) + MonthsBefore(d.year, d.month) + d.day - 1
  }

  function YearsBefore(year: nat): nat
    requires year >= 1970
  {
    if year == 1970 then 0 else YearsBefore(year - 1) + (if IsLeap(year - 1) then 366 else 365)
  }

  function MonthsBefore(year: nat, month: nat): nat {
    if month <= 1 then 0 else MonthsBefore(year, month - 1) + DaysInMonth(year, month - 1)
  }

  // ---- the formula ----

  function YearOfEra(doe: nat): nat {
    (doe - doe / 1460 + doe / 36524 - doe / 146_096) / 365
  }

  /** Days of an era of 400 years before one of its years, which start on 1 March. */
  function DaysBefore(yoe: nat): nat {
    365 * yoe + yoe / 4 - yoe / 100
  }

  /** The date of day `doy` of the year that starts on 1 March of `year`. */
  function MarchDate(year: nat, doy: nat): Date {
    var mp := (5 * doy + 2) / 153;
    var day := doy - (153 * mp + 2) / 5 + 1;
    if mp < 10 then Date(year, mp + 3, day) else Date(year + 1, mp - 9, day)
  }

  /** `civil_from_days`. The subtractions are on natural numbers: none of them underflows. */
  function CivilFromDays(days: nat): Date {
    var z := days + 719_468;
    var era := z / 146_097;
    var doe := z % 146_097;
    var yoe := YearOfEra(doe);
    YearFound(doe);
    var doy := doe - DaysBefore(yoe);
    MarchDate(yoe + era * 400, doy)
  }

  // ---- years of an era ----

  /** A March-based year holds the leap day of the next calendar year. */
  function YearLength(yoe: nat): nat {
    if IsLeap(yoe + 1) then 366 else 365
  }

  /** Centuries, groups of four years, years and days within an era. */
  predicate AreParts(c: nat, q: nat, r: nat, d: nat) {
    c <= 3 && q <= 24 && r <= 3 && (d <= 364 || (d == 365 && r == 3 && (q < 24 || c == 3)))
  }

  lemma YearOfParts(c: nat, q: nat, r: nat, d: nat)
    requires AreParts(c, q, r, d)
    ensures var doe, yoe := 36524 * c + 1461 * q + 365 * r + d, 100 * c + 4 * q + r;
            doe < 146_097 && YearOfEra(doe) == yoe
  {
    var doe, yoe := 36524 * c + 1461 * q + 365 * r + d, 100 * c + 4 * q + r;
    var last := doe == 146_096;
    assert doe / 36524 == if last then 4 else c;
    assert doe / 146_096 == if last then 1 else 0;
    var e := if 24 * c + q + 365 * r + d >= 1460 then 1 else 0;
    assert doe / 1460 == 25 * c + q + e;
    assert doe - doe / 1460 + doe / 36524 - doe / 146_096 == 365 * yoe + (d - e);
  }

  lemma DaysOfParts(c: nat, q: nat, r: nat, d: nat)
    requires AreParts(c, q, r, d)
    ensures var doe, yoe := 36524 * c + 1461 * q + 365 * r + d, 100 * c + 4 * q + r;
            && yoe < 400 && DaysBefore(yoe) + d == doe
            && YearLength(yoe) == (if r == 3 && (q < 24 || c == 3) then 366 else 365)
  {
    var yoe := 100 * c + 4 * q + r;
    assert yoe / 4 == 25 * c + q;
    assert yoe / 100 == c;
  }

  lemma PartsOf(doe: nat) returns (c: nat, q: nat, r: nat, d: nat)
    requires doe < 146_097
    ensures AreParts(c, q, r, d)
    ensures doe == 36524 * c + 1461 * q + 365 * r + d
  {
    c := if doe == 146_096 then 3 else doe / 36524;
    var inCentury := doe - 36524 * c;
    q := inCentury / 1461;
    var inFour := inCentury % 1461;
    r := if inFour == 1460 then 3 else inFour / 365;
    d := inFour - 365 * r;
  }

  /** The formula finds the year that holds the day. */
  lemma YearFound(doe: nat)
    requires doe < 146_097
    ensures var yoe := YearOfEra(doe);
            yoe < 400 && DaysBefore(yoe) <= doe < DaysBefore(yoe) + YearLength(yoe)
  {
    hide YearOfEra, DaysBefore, YearLength;
    var c, q, r, d := PartsOf(doe);
    YearOfParts(c, q, r, d);
    DaysOfParts(c, q, r, d);
  }

  /** And it finds no other. */
  lemma YearUnique(yoe: nat, doy: nat)
    requires yoe < 400 && doy < YearLength(yoe)
    ensures DaysBefore(yoe) + doy < 146_097 && YearOfEra(DaysBefore(yoe) + doy) == yoe
  {
    hide YearOfEra, YearLength, DaysBefore;
    DaysOfParts(yoe / 100, yoe % 100 / 4, yoe % 4, 0);
    YearOfParts(yoe / 100, yoe % 100 / 4, yoe % 4, doy);
    DaysOfParts(yoe / 100, yoe % 100 / 4, yoe % 4, doy);
  }

  lemma YearsFollow(yoe: nat)
    requires yoe < 400
    ensures if yoe < 399 then DaysBefore(yoe + 1) == DaysBefore(yoe) + YearLength(yoe)
            else DaysBefore(yoe) + YearLength(yoe) == 146_097
  {
    hide YearOfEra, YearLength, DaysBefore;
    var c, q, r := yoe / 100, yoe % 100 / 4, yoe % 4;
    DaysOfParts(c, q, r, 0);
    if r < 3 {
      DaysOfParts(c, q, r + 1, 0);
    } else if q < 24 {
      DaysOfParts(c, q + 1, 0, 0);
    } else if c < 3 {
      DaysOfParts(c + 1, 0, 0, 0);
    }
  }

  // ---- days of a year ----

  lemma MarchDates(year: nat, doy: nat)
    requires doy < YearLength(year)
    ensures ValidDate(MarchDate(year, doy))
    ensures NextDay(MarchDate(year, doy)) ==
            if doy + 1 < YearLength(year) then MarchDate(year, doy + 1) else MarchDate(year + 1, 0)
  {
  }

  lemma EraLeap(yoe: nat, era: nat)
    ensures YearLength(yoe + era * 400) == YearLength(yoe)
  {
    SameRemainders(yoe + 1, era);
  }

  lemma {:induction false} SameRemainders(y: nat, era: nat)
    ensures var z := y + era * 400; z % 400 == y % 400 && z % 100 == y % 100 && z % 4 == y % 4
  {
    if era > 0 {
      SameRemainders(y, era - 1);
      var z := y + (era - 1) * 400;
      assert z + 400 == y + era * 400;
      NextEra(z);
    }
  }

  lemma NextEra(z: nat)
    ensures (z + 400) % 400 == z % 400
    ensures (z + 400) % 100 == z % 100
    ensures (z + 400) % 4 == z % 4
  {
    var w := z + 400;
    assert w / 400 == z / 400 + 1;
    assert w / 100 == z / 100 + 4;
    assert w / 4 == z / 4 + 100;
  }

  // ---- the formula refines the calendar ----

  /** The formula on the day with given era, year of era and day of year. */
  lemma CivilAt(days: nat, era: nat, yoe: nat, doy: nat)
    requires yoe < 400 && doy < YearLength(yoe)
    requires days + 719_468 == era * 146_097 + DaysBefore(yoe) + doy
    ensures CivilFromDays(days) == MarchDate(yoe + era * 400, doy)
  {
    hide YearOfEra, YearLength, DaysBefore, MarchDate;
    YearUnique(yoe, doy);
    var z := days + 719_468;
    assert z / 146_097 == era && z % 146_097 == DaysBefore(yoe) + doy;
  }

  lemma CivilNext(days: nat)
    ensures ValidDate(CivilFromDays(days))
    ensures CivilFromDays(days + 1) == NextDay(CivilFromDays(days))
  {
    hide YearOfEra, MarchDate, NextDay, CivilFromDays, ValidDate, IsLeap;
    var z := days + 719_468;
    var era, doe := z / 146_097, z % 146_097;
    YearFound(doe);
    var yoe := YearOfEra(doe);
    var doy := doe - DaysBefore(yoe);
    EraLeap(yoe, era);
    CivilAt(days, era, yoe, doy);
    MarchDates(yoe + era * 400, doy);
    YearsFollow(yoe);
    if doy + 1 < YearLength(yoe) {
      CivilAt(days + 1, era, yoe, doy + 1);
    } else if yoe < 399 {
      CivilAt(days + 1, era, yoe + 1, 0);
    } else {
      assert DaysBefore(0) == 0;
      CivilAt(days + 1, era + 1, 0, 0);
    }
  }

  /** For every day from the epoch, the formula gives the date reached by counting days. */
  lemma {:induction false} CivilIsCalendar(days: nat)
    ensures CivilFromDays(days) == DateAfter(days)
  {
    hide CivilFromDays, YearOfEra, NextDay;
    if days == 0 {
      CivilAt(0, 4, 369, 306);
    } else {
      CivilIsCalendar(days - 1);
      CivilNext(days - 1);
    }
  }

  lemma CountNext(d: Date)
    requires d.year >= 1970 && ValidDate(d)
    ensures DaysSinceEpoch(NextDay(d)) == DaysSinceEpoch(d) + 1
  {
    if d.month == 12 {
      YearTotal(d.year);
    }
  }

  lemma YearTotal(year: nat)
    ensures MonthsBefore(year, 12) + 31 == if IsLeap(year) then 366 else 365
  {
    assert MonthsBefore(year, 2) == 31;
    assert MonthsBefore(year, 4) == 90 + if IsLeap(year) then 1 else 0;
    assert MonthsBefore(year, 6) == MonthsBefore(year, 4) + 61;
    assert MonthsBefore(year, 8) == MonthsBefore(year, 6) + 61;
    assert MonthsBefore(year, 10) == MonthsBefore(year, 8) + 61;
  }

  /** The formula inverts the count of days. */
  lemma {:induction false} CivilInvertsCount(days: nat)
    ensures CivilFromDays(days).year >= 1970
    ensures DaysSinceEpoch(CivilFromDays(days)) == days
  {
    hide CivilFromDays, ValidDate, IsLeap, DaysInMonth;
    if days == 0 {
      CivilIsCalendar(0);
    } else {
      CivilInvertsCount(days - 1);
      CivilNext(days - 1);
      CountNext(CivilFromDays(days - 1));
    }
  }

  // ---- time stamps ----

  datatype Timestamp = Timestamp(date: Date, hours: nat, minutes: nat, seconds: nat)

  /** The numbers `pretty_timestamp_utc` prints. */
  function TimestampUtc(epochMillis: nat): Timestamp {
    var secs := epochMillis / 1000;
    var secsOfDay := secs % 86_400;
    Timestamp(CivilFromDays(secs / 86_400), secsOfDay / 3600, secsOfDay % 3600 / 60, secsOfDay % 60)
  }

  /** The printed fields are a valid time of day and name the very second. */
  lemma TimestampExact(epochMillis: nat)
    ensures var t := TimestampUtc(epochMillis);
            && ValidDate(t.date) && t.date.year >= 1970 && t.hours < 24 && t.minutes < 60 && t.seconds < 60
            && DaysSinceEpoch(t.date) * 86_400 + t.hours * 3600 + t.minutes * 60 + t.seconds == epochMillis / 1000
  {
    hide CivilFromDays, ValidDate, DaysSinceEpoch;
    var days := epochMillis / 1000 / 86_400;
    CivilNext(days);
    CivilInvertsCount(days);
  }
}
