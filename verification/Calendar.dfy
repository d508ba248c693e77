/** The proleptic Gregorian calendar as the game computes it, and as it is
    defined: one day after another. Both conversions count eras of 400 years that
    begin in March, so that a leap day is the last of its year; they are shown to
    undo each other for every day, before the epoch too, and to agree with stepping
    from each date to the next by the lengths of months and years. */
module Calendar {

  datatype Date = Date(year: int, month: nat, day: nat)

  predicate IsLeap(year: int) {
    year % 4 == 0 && (year % 100 != 0 || year % 400 == 0)
  }

  function DaysInMonth(year: int, month: nat): nat {
    if month == 2 then if IsLeap(year) then 29 else 28
    else if month in {4, 6, 9, 11} then 30
    else 31
  }

  predicate ValidDate(d: Date) {
    1 <= d.month <= 12 && 1 <= d.day <= DaysInMonth(d.year, d.month)
  }

  /** The day after. */
  function Next(d: Date): Date {
    if d.day < DaysInMonth(d.year, d.month) then d.(day := d.day + 1)
    else if d.month < 12 then Date(d.year, d.month + 1, 1)
    else Date(d.year + 1, 1, 1)
  }

  const EPOCH := Date(1970, 1, 1)

  // ---- As computed ------------------------------------------------------------

  const SECONDS_PER_DAY := 86_400
  const DAYS_PER_ERA := 146_097
  const EPOCH_DAY := 719_468

  /** Months count from March, so a leap day ends its year. */
  function MonthIndex(month: nat): nat {
    if month > 2 then month - 3 else month + 9
  }

  function MonthStart(index: nat): nat {
    (153 * index + 2) / 5
  }

  /** The day of the era a March-based year begins on. */
  function YearStart(yearOfEra: nat): int {
    yearOfEra * 365 + yearOfEra / 4 - yearOfEra / 100
  }

  /** Days since 1970-01-01; a day past the month's end runs on into the next. */
  function DaysFromCivil(year: int, month: nat, day: nat): int {
    var y := if month <= 2 then year - 1 else year;
    var era := y / 400;
    var yearOfEra := y - era * 400;
    var dayOfYear := MonthStart(MonthIndex(month)) + day - 1;
    era * DAYS_PER_ERA + (YearStart(yearOfEra) + dayOfYear) - EPOCH_DAY
  }

  function YearOfEra(dayOfEra: nat): nat {
    (dayOfEra - dayOfEra / 1460 + dayOfEra / 36_524 - dayOfEra / 146_096) / 365
  }

  function CivilFromDays(days: int): Date {
    var z := days + EPOCH_DAY;
    var era := z / DAYS_PER_ERA;
    var dayOfEra := z % DAYS_PER_ERA;
    var yearOfEra := YearOfEra(dayOfEra);
    YearFits(dayOfEra);
    var dayOfYear := dayOfEra - YearStart(yearOfEra);
    var index := (5 * dayOfYear + 2) / 153;
    MonthFits(dayOfYear);
    var day := dayOfYear - MonthStart(index) + 1;
    var month := if index < 10 then index + 3 else index - 9;
    Date(yearOfEra + era * 400 + (if month <= 2 then 1 else 0), month, day)
  }

  // ---- Years ---------------------------------------------------------------------

  /** The first day of the era past a March-based year. */
  function YearEnd(yearOfEra: nat): int {
    if yearOfEra == 399 then DAYS_PER_ERA else YearStart(yearOfEra + 1)
  }

  /** A day of the era lies in the year the formula names, and in no other. */
  lemma YearIsFound(dayOfEra: nat, y: nat)
    requires y < 400 && YearStart(y) <= dayOfEra < YearEnd(y)
    ensures YearOfEra(dayOfEra) == y
  {
    var c, q, b := y / 100, (y % 100) / 4, y % 4;
    var r := dayOfEra - YearStart(y);
    assert y == 100 * c + 4 * q + b && y / 4 == 25 * c + q;
    assert dayOfEra == 36_524 * c + 1461 * q + 365 * b + r;
    YearParts(c, q, b, r);
  }

  lemma QuarterStep(y: nat)
    ensures (y + 1) / 4 - y / 4 == if (y + 1) % 4 == 0 then 1 else 0
  {
  }

  lemma CenturyStep(y: nat)
    ensures (y + 1) / 100 - y / 100 == if (y + 1) % 100 == 0 then 1 else 0
    ensures (y + 1) % 100 == 0 ==> (y + 1) % 4 == 0
  {
  }

  /** The length of a March-based year. */
  lemma YearLength(y: nat)
    requires y < 400
    ensures YearEnd(y) - YearStart(y) == if IsLeap(y + 1) then 366 else 365
  {
    QuarterStep(y);
    CenturyStep(y);
  }

  lemma YearParts(c: nat, q: nat, b: nat, r: nat)
    requires c < 4 && q < 25 && b < 4
    requires r < 365 || (r == 365 && b == 3 && (q < 24 || c == 3))
    ensures YearOfEra(36_524 * c + 1461 * q + 365 * b + r) == 100 * c + 4 * q + b
  {
    var d := 36_524 * c + 1461 * q + 365 * b + r;
    var late := if 24 * c + q + 365 * b + r >= 1460 then 1 else 0;
    assert d / 1460 == 25 * c + q + late;
    var last := if c == 3 && q == 24 && b == 3 && r == 365 then 1 else 0;
    assert d / 36_524 == c + last;
    assert d / 146_096 == last;
    assert d - d / 1460 + d / 36_524 - d / 146_096 == 365 * (100 * c + 4 * q + b) + (r - late);
  }

  lemma {:induction false} YearExists(dayOfEra: nat, from: nat) returns (y: nat)
    requires dayOfEra < DAYS_PER_ERA && from < 400 && YearStart(from) <= dayOfEra
    ensures y < 400 && YearStart(y) <= dayOfEra < YearEnd(y)
    decreases 400 - from
  {
    if dayOfEra < YearEnd(from) {
      y := from;
    } else {
      y := YearExists(dayOfEra, from + 1);
    }
  }

  lemma YearFits(dayOfEra: nat)
    requires dayOfEra < DAYS_PER_ERA
    ensures
      var y := YearOfEra(dayOfEra);
      y < 400 && YearStart(y) <= dayOfEra < YearEnd(y) && dayOfEra - YearStart(y) <= if IsLeap(y + 1) then 365 else 364
  {
    var y := YearExists(dayOfEra, 0);
    YearIsFound(dayOfEra, y);
    YearLength(y);
  }

  // ---- Months -----------------------------------------------------------------------

  lemma MonthFits(dayOfYear: nat)
    requires dayOfYear <= 365
    ensures
      var index := (5 * dayOfYear + 2) / 153;
      index <= 11 && MonthStart(index) <= dayOfYear && (index < 11 ==> dayOfYear < MonthStart(index + 1))
  {
  }

  lemma MonthIsFound(index: nat, day: nat)
    requires index <= 11 && (index < 11 ==> MonthStart(index) + day < MonthStart(index + 1)) && MonthStart(index) + day <= 365
    ensures (5 * (MonthStart(index) + day) + 2) / 153 == index
  {
  }

  /** Every month but February is as long as the calendar says. */
  lemma MonthLength(year: int, month: nat)
    requires 1 <= month <= 12 && month != 2
    ensures MonthStart(MonthIndex(month) + 1) - MonthStart(MonthIndex(month)) == DaysInMonth(year, month)
  {
  }

  // ---- Days and dates are the same thing ------------------------------------------------

  /** The March-based year and day of year of a date. */
  lemma DateParts(d: Date)
    requires ValidDate(d)
    ensures
      var y, index := (if d.month <= 2 then d.year - 1 else d.year), MonthIndex(d.month);
      var dayOfYear := MonthStart(index) + d.day - 1;
      && index <= 11 && 0 <= dayOfYear < YearEnd(y % 400) - YearStart(y % 400)
      && (index < 11 ==> dayOfYear < MonthStart(index + 1))
  {
    var y := if d.month <= 2 then d.year - 1 else d.year;
    YearLength(y % 400);
    if d.month != 2 {
      MonthLength(d.year, d.month);
    } else {
      LeapInEra(y);
    }
  }

  lemma LeapInEra(y: int)
    ensures IsLeap(y + 1) == IsLeap(y % 400 + 1)
  {
    var era := y / 400;
    assert y == 400 * era + y % 400;
    SameLeap(y % 400 + 1, era);
  }

  lemma Same4(y: int, k: int)
    ensures (y + 4 * k) % 4 == y % 4
  {
  }

  lemma Same100(y: int, k: int)
    ensures (y + 100 * k) % 100 == y % 100
  {
  }

  lemma Same400(y: int, k: int)
    ensures (y + 400 * k) % 400 == y % 400
  {
  }

  lemma SameLeap(y: int, era: int)
    ensures IsLeap(y + 400 * era) == IsLeap(y)
  {
    Same4(y, 100 * era);
    Same100(y, 4 * era);
    Same400(y, era);
  }

  lemma CivilOf(era: int, y: nat, dayOfYear: nat)
    requires y < 400 && dayOfYear < YearEnd(y) - YearStart(y)
    ensures
      var index := (5 * dayOfYear + 2) / 153;
      var month := if index < 10 then index + 3 else index - 9;
      && index <= 11 && MonthStart(index) <= dayOfYear
      && CivilFromDays(era * DAYS_PER_ERA + (YearStart(y) + dayOfYear) - EPOCH_DAY)
         == Date(y + era * 400 + (if month <= 2 then 1 else 0), month, dayOfYear - MonthStart(index) + 1)
  {
    var dayOfEra := YearStart(y) + dayOfYear;
    EraSplits(era, dayOfEra);
    YearIsFound(dayOfEra, y);
    YearLength(y);
    MonthFits(dayOfYear);
  }

  lemma EraSplits(era: int, dayOfEra: nat)
    requires dayOfEra < DAYS_PER_ERA
    ensures (era * DAYS_PER_ERA + dayOfEra) / DAYS_PER_ERA == era
    ensures (era * DAYS_PER_ERA + dayOfEra) % DAYS_PER_ERA == dayOfEra
  {
  }

  lemma MonthOfDate(d: Date)
    requires ValidDate(d)
    ensures (5 * (MonthStart(MonthIndex(d.month)) + d.day - 1) + 2) / 153 == MonthIndex(d.month)
  {
    DateParts(d);
    var y := if d.month <= 2 then d.year - 1 else d.year;
    YearLength(y % 400);
    MonthIsFound(MonthIndex(d.month), d.day - 1);
  }

  /** The year counted from March a date falls in. */
  function MarchYear(d: Date): int {
    if d.month <= 2 then d.year - 1 else d.year
  }

  lemma DaysByParts(d: Date)
    requires ValidDate(d)
    ensures
      var y := MarchYear(d);
      DaysFromCivil(d.year, d.month, d.day)
        == (y / 400) * DAYS_PER_ERA + (YearStart(y % 400) + (MonthStart(MonthIndex(d.month)) + d.day - 1)) - EPOCH_DAY
  {
  }

  lemma DateFromParts(d: Date, era: int, y: nat)
    requires ValidDate(d) && y < 400 && MarchYear(d) == y + era * 400
    requires 0 <= MonthStart(MonthIndex(d.month)) + d.day - 1 < YearEnd(y) - YearStart(y)
    ensures CivilFromDays(era * DAYS_PER_ERA + (YearStart(y) + (MonthStart(MonthIndex(d.month)) + d.day - 1)) - EPOCH_DAY) == d
  {
    MonthOfDate(d);
    CivilOf(era, y, MonthStart(MonthIndex(d.month)) + d.day - 1);
  }

  /** Every date comes back from its day. */
  lemma DateReadsBack(d: Date)
    requires ValidDate(d)
    ensures CivilFromDays(DaysFromCivil(d.year, d.month, d.day)) == d
  {
    var y := MarchYear(d);
    DateParts(d);
    DaysByParts(d);
    DateFromParts(d, y / 400, y % 400);
  }

  /** The date a March-based year and month index stand for. */
  function DateAt(era: int, y: nat, index: nat, day: nat): Date {
    var month := if index < 10 then index + 3 else index - 9;
    Date(y + era * 400 + (if month <= 2 then 1 else 0), month, day)
  }

  lemma DateAtIsValid(era: int, y: nat, index: nat, day: nat)
    requires y < 400 && index <= 11 && 1 <= day
    requires if index < 11 then MonthStart(index) + day <= MonthStart(index + 1) else MonthStart(11) + day <= YearEnd(y) - YearStart(y)
    ensures ValidDate(DateAt(era, y, index, day))
  {
    var d := DateAt(era, y, index, day);
    assert MonthIndex(d.month) == index;
    if index < 11 {
      MonthLength(d.year, d.month);
    } else {
      YearLength(y);
      SameLeap(y + 1, era);
    }
  }

  lemma DateAtDays(era: int, y: nat, index: nat, day: nat)
    requires y < 400 && index <= 11 && 1 <= day
    ensures
      var d := DateAt(era, y, index, day);
      DaysFromCivil(d.year, d.month, d.day) == era * DAYS_PER_ERA + (YearStart(y) + (MonthStart(index) + day - 1)) - EPOCH_DAY
  {
    assert (era * 400 + y) / 400 == era;
  }

  /** Every day is some date's day, and comes back from it. */
  lemma DayReadsBack(days: int)
    ensures DaysFromCivil(CivilFromDays(days).year, CivilFromDays(days).month, CivilFromDays(days).day) == days
    ensures ValidDate(CivilFromDays(days))
  {
    var z := days + EPOCH_DAY;
    var era, dayOfEra := z / DAYS_PER_ERA, z % DAYS_PER_ERA;
    YearFits(dayOfEra);
    var y := YearOfEra(dayOfEra);
    var dayOfYear := dayOfEra - YearStart(y);
    CivilOf(era, y, dayOfYear);
    MonthFits(dayOfYear);
    var index := (5 * dayOfYear + 2) / 153;
    var day := dayOfYear - MonthStart(index) + 1;
    assert CivilFromDays(days) == DateAt(era, y, index, day);
    DateAtIsValid(era, y, index, day);
    DateAtDays(era, y, index, day);
  }

  /** The day after a date is the next number, by the calendar's own rule. */
  lemma NextDayIsNext(d: Date)
    requires ValidDate(d)
    ensures ValidDate(Next(d))
    ensures DaysFromCivil(Next(d).year, Next(d).month, Next(d).day) == DaysFromCivil(d.year, d.month, d.day) + 1
  {
    if d.day == DaysInMonth(d.year, d.month) {
      if d.month == 2 {
        FebruaryEnds(d.year);
      } else {
        MonthLength(d.year, d.month);
      }
    }
  }

  /** March 1 follows the last of February, in the next March-based year. */
  lemma FebruaryEnds(year: int)
    ensures DaysFromCivil(year, 3, 1) == DaysFromCivil(year, 2, DaysInMonth(year, 2)) + 1
  {
    var y := year - 1;
    LeapInEra(y);
    YearLength(y % 400);
    if y % 400 == 399 {
      assert year / 400 == y / 400 + 1 && year % 400 == 0;
      assert YearStart(0) == 0;
    } else {
      assert year / 400 == y / 400 && year % 400 == y % 400 + 1;
    }
  }

  /** The clock's parts of a second of the day. */
  lemma ClockParts(secondOfDay: nat)
    requires secondOfDay < SECONDS_PER_DAY
    ensures
      var (h, m, s) := (secondOfDay / 3600, secondOfDay / 60 % 60, secondOfDay % 60);
      h <= 23 && m <= 59 && s <= 59 && h * 3600 + m * 60 + s == secondOfDay
  {
  }

  /** Counting days from 1970-01-01 is counting dates one after another. */
  lemma DayCountIsCalendar(days: int)
    ensures CivilFromDays(0) == EPOCH
    ensures CivilFromDays(days + 1) == Next(CivilFromDays(days))
  {
    assert DaysFromCivil(1970, 1, 1) == 0;
    DateReadsBack(EPOCH);
    DayReadsBack(days);
    NextDayIsNext(CivilFromDays(days));
    DateReadsBack(Next(CivilFromDays(days)));
  }
}
