/** The days a time zone's rules name: the nth or last weekday of a month, or a
    day of the year. A rule is given a meaning of its own, the date it names in a
    year, and what the code computes is shown to be midnight of that date. For the
    weekday rules the day named is also shown to be the only one there is; for the
    other two, leap days are skipped or counted as the rule says. */
module ZoneRules {
  import opened Calendar

  datatype RuleDate =
    | MonthWeekDay(month: nat, week: nat, weekday: nat)
    | JulianNoLeap(n: nat)
    | Julian(n: nat)

  /** What the rule parser lets through. */
  predicate ValidRule(r: RuleDate) {
    match r
    case MonthWeekDay(month, week, weekday) => 1 <= month <= 12 && 1 <= week <= 5 && weekday <= 6
    case JulianNoLeap(n) => 1 <= n <= 365
    case Julian(n) => n <= 365
  }

  /** 0 is Sunday; 1970-01-01 was a Thursday. */
  function Weekday(days: int): nat {
    (days + 4) % 7
  }

  /** The year a moment falls in, as the rules compute it. */
  function YearOf(unixSeconds: int): int {
    var days := unixSeconds / SECONDS_PER_DAY + EPOCH_DAY;
    var era := days / DAYS_PER_ERA;
    var dayOfEra := days - era * DAYS_PER_ERA;
    var yearOfEra := YearOfEra(dayOfEra);
    YearFits(dayOfEra);
    var dayOfYear := dayOfEra - YearStart(yearOfEra);
    var index := (5 * dayOfYear + 2) / 153;
    var month := if index < 10 then index + 3 else index - 9;
    yearOfEra + era * 400 + if month <= 2 then 1 else 0
  }

  /** It is the year from whose January 1 the moment lies less than a year. */
  lemma YearOfBrackets(unixSeconds: int)
    ensures
      var year := YearOf(unixSeconds);
      && DaysFromCivil(year, 1, 1) * SECONDS_PER_DAY <= unixSeconds < DaysFromCivil(year + 1, 1, 1) * SECONDS_PER_DAY
      && year == CivilFromDays(unixSeconds / SECONDS_PER_DAY).year
  {
    var days := unixSeconds / SECONDS_PER_DAY;
    var d := CivilFromDays(days);
    assert d.year == YearOf(unixSeconds);
    DayReadsBack(days);
    YearSpan(d);
  }

  // ---- Days of a year ---------------------------------------------------------

  /** Days from January 1, in a year without a leap day. */
  function CommonOffset(month: nat, day: nat): int {
    if month <= 2 then MonthStart(MonthIndex(month)) - MonthStart(10) + day - 1
    else 59 + MonthStart(MonthIndex(month)) + day - 1
  }

  lemma OffsetInYear(year: int, month: nat, day: nat)
    requires 1 <= month <= 12 && day >= 1
    ensures DaysFromCivil(year, month, day) - DaysFromCivil(year, 1, 1)
      == CommonOffset(month, day) + if month > 2 && IsLeap(year) then 1 else 0
  {
    if month > 2 {
      FebruaryEnds(year);
      MarchOffset(year, month, day);
      EarlyOffset(year, 2, DaysInMonth(year, 2));
    } else {
      EarlyOffset(year, month, day);
    }
  }

  lemma EarlyOffset(year: int, month: nat, day: nat)
    requires 1 <= month <= 2 && day >= 1
    ensures DaysFromCivil(year, month, day) - DaysFromCivil(year, 1, 1) == MonthStart(MonthIndex(month)) - MonthStart(10) + day - 1
  {
  }

  lemma MarchOffset(year: int, month: nat, day: nat)
    requires 3 <= month <= 12 && day >= 1
    ensures DaysFromCivil(year, month, day) - DaysFromCivil(year, 3, 1) == MonthStart(MonthIndex(month)) + day - 1
  {
  }

  /** A year runs from January 1 to the next, 365 or 366 days. */
  lemma YearSpan(d: Date)
    requires ValidDate(d)
    ensures
      var days, first := DaysFromCivil(d.year, d.month, d.day), DaysFromCivil(d.year, 1, 1);
      var next := DaysFromCivil(d.year + 1, 1, 1);
      first <= days < next && next - first == if IsLeap(d.year) then 366 else 365
  {
    OffsetInYear(d.year, d.month, d.day);
    OffsetInYear(d.year, 12, 31);
    NextDayIsNext(Date(d.year, 12, 31));
    OffsetBound(d);
  }

  lemma OffsetBound(d: Date)
    requires ValidDate(d)
    ensures 0 <= CommonOffset(d.month, d.day) <= 364 + if d.month == 2 && IsLeap(d.year) then 1 else 0
    ensures d.month <= 2 ==> CommonOffset(d.month, d.day) <= 59
  {
    if d.month != 2 {
      MonthLength(d.year, d.month);
    }
  }

  // ---- Days by rule ---------------------------------------------------------------

  /** `day` is the `week`-th day of its weekday in the month, or the last of them
      when the month has fewer. */
  predicate NthOrLast(year: int, month: nat, day: nat, week: nat) {
    && 1 <= day <= DaysInMonth(year, month)
    && var nth := (day - 1) / 7 + 1;
       nth == week || (nth < week && day + 7 > DaysInMonth(year, month))
  }

  /** The rule names `d` in `year`. */
  predicate Names(year: int, rule: RuleDate, d: Date) {
    && ValidDate(d)
    && match rule
       case MonthWeekDay(month, week, weekday) =>
         && d.year == year && d.month == month && NthOrLast(year, month, d.day, week)
         && Weekday(DaysFromCivil(year, month, d.day)) == weekday
       // The same date every year: a leap day is never counted.
       case JulianNoLeap(n) => d.year == year && CommonOffset(d.month, d.day) == n - 1
       // Days from January 1, a leap day counted; day 365 of a common year is the next January 1.
       case Julian(n) =>
         if n == 365 && !IsLeap(year) then d == Date(year + 1, 1, 1)
         else d.year == year && CommonOffset(d.month, d.day) + (if d.month > 2 && IsLeap(year) then 1 else 0) == n
  }

  lemma DaysInARow(year: int, month: nat, day: nat)
    ensures DaysFromCivil(year, month, day) == DaysFromCivil(year, month, 1) + day - 1
  {
  }

  lemma SameWeekday(first: int, a: int, b: int)
    requires (first + a + 4) % 7 == (first + b + 4) % 7
    ensures a % 7 == b % 7
  {
  }

  /** Only one day can be it. */
  lemma NthOrLastIsOne(year: int, month: nat, a: nat, b: nat, week: nat)
    requires NthOrLast(year, month, a, week) && NthOrLast(year, month, b, week)
    requires Weekday(DaysFromCivil(year, month, a)) == Weekday(DaysFromCivil(year, month, b))
    ensures a == b
  {
    DaysInARow(year, month, a);
    DaysInARow(year, month, b);
    SameWeekday(DaysFromCivil(year, month, 1), a - 1, b - 1);
    OneInMonth(DaysInMonth(year, month), a, b, week);
  }

  lemma OneInMonth(days: nat, a: nat, b: nat, week: nat)
    requires 1 <= a <= days && 1 <= b <= days && (a - 1) % 7 == (b - 1) % 7
    requires (a - 1) / 7 + 1 == week || ((a - 1) / 7 + 1 < week && a + 7 > days)
    requires (b - 1) / 7 + 1 == week || ((b - 1) / 7 + 1 < week && b + 7 > days)
    ensures a == b
  {
    assert a < b ==> b - a >= 7;
    assert b < a ==> a - b >= 7;
  }

  /** The first day of a weekday, and the week-th after it. */
  function FromFirst(firstWeekday: nat, week: nat, weekday: nat): int {
    1 + (weekday + 7 - firstWeekday) % 7 + (week - 1) * 7
  }

  lemma FromFirstLands(first: int, week: nat, weekday: nat)
    requires 1 <= week && weekday <= 6
    ensures
      var day := FromFirst((first + 4) % 7, week, weekday);
      day >= 1 && (day - 1) / 7 + 1 == week && (first + day - 1 + 4) % 7 == weekday
  {
    var ahead := (weekday + 7 - (first + 4) % 7) % 7;
    assert (first + ahead + 4) % 7 == weekday;
  }

  /** The week-th weekday counted from the first, then back into the month. */
  method WeekdayInMonth(year: int, month: nat, week: nat, weekday: nat) returns (day: int)
    requires ValidRule(MonthWeekDay(month, week, weekday))
    ensures day >= 1 && NthOrLast(year, month, day, week) && Weekday(DaysFromCivil(year, month, 1) + day - 1) == weekday
  {
    var first := DaysFromCivil(year, month, 1);
    var length := DaysInMonth(year, month);
    day := FromFirst((first + 4) % 7, week, weekday);
    FromFirstLands(first, week, weekday);
    while day > length
      invariant 1 <= day && (first + day - 1 + 4) % 7 == weekday
      invariant (day - 1) / 7 + 1 == week || ((day - 1) / 7 + 1 < week && day + 7 > length)
      decreases day
    {
      BackAWeek(first, day, weekday);
      day := day - 7;
    }
  }

  lemma BackAWeek(first: int, day: int, weekday: nat)
    requires (first + day - 1 + 4) % 7 == weekday
    ensures (first + (day - 7) - 1 + 4) % 7 == weekday
    ensures (day - 7 - 1) / 7 + 1 == (day - 1) / 7
  {
  }

  /** The date that is day `n` of a common year. */
  lemma CommonDate(n: nat) returns (d: Date)
    requires 1 <= n <= 365
    ensures ValidDate(d) && d.year == 2001 && CommonOffset(d.month, d.day) == n - 1
  {
    d := CivilFromDays(DaysFromCivil(2001, 1, 1) + n - 1);
    DayReadsBack(DaysFromCivil(2001, 1, 1) + n - 1);
    CommonYear(n);
    OffsetInYear(2001, d.month, d.day);
  }

  lemma LeapSkip(d: Date, year: int, n: nat)
    requires ValidDate(d) && d.year == 2001 && CommonOffset(d.month, d.day) == n - 1
    ensures n >= 60 <==> d.month > 2
    ensures ValidDate(Date(year, d.month, d.day))
  {
    MarchIsLater(d);
  }

  lemma SameDateEveryYear(year: int, n: nat) returns (d: Date)
    requires 1 <= n <= 365
    ensures
      var skip := if IsLeap(year) && n >= 60 then 1 else 0;
      Names(year, JulianNoLeap(n), d) && DaysFromCivil(d.year, d.month, d.day) == DaysFromCivil(year, 1, 1) + n - 1 + skip
  {
    var common := CommonDate(n);
    LeapSkip(common, year, n);
    d := Date(year, common.month, common.day);
    OffsetInYear(year, d.month, d.day);
  }

  /** Day `n` of 2001 is in 2001. */
  lemma CommonYear(n: nat)
    requires 1 <= n <= 365
    ensures CivilFromDays(DaysFromCivil(2001, 1, 1) + n - 1).year == 2001
  {
    var day := DaysFromCivil(2001, 1, 1) + n - 1;
    DayReadsBack(day);
    YearSpan(Date(2001, 1, 1));
    YearBetween(CivilFromDays(day), 2001);
  }

  /** Years begin in order. */
  lemma {:induction false} YearOrder(a: int, b: int)
    ensures a <= b ==> DaysFromCivil(a, 1, 1) <= DaysFromCivil(b, 1, 1)
    decreases b - a
  {
    if a < b {
      YearSpan(Date(a, 1, 1));
      YearOrder(a + 1, b);
    }
  }

  lemma MarchIsLater(d: Date)
    requires ValidDate(d) && !IsLeap(d.year)
    ensures d.month > 2 <==> CommonOffset(d.month, d.day) >= 59
  {
    if d.month != 2 {
      MonthLength(d.year, d.month);
    }
  }

  /** A date's year, from where its day lies among the years' first days. */
  lemma YearBetween(d: Date, year: int)
    requires ValidDate(d)
    requires DaysFromCivil(year, 1, 1) <= DaysFromCivil(d.year, d.month, d.day) < DaysFromCivil(year + 1, 1, 1)
    ensures d.year == year
  {
    YearSpan(d);
    YearOrder(year + 1, d.year);
    YearOrder(d.year + 1, year);
  }

  lemma CountedDay(year: int, n: nat) returns (d: Date)
    requires n <= 365
    ensures Names(year, Julian(n), d) && DaysFromCivil(d.year, d.month, d.day) == DaysFromCivil(year, 1, 1) + n
  {
    var day := DaysFromCivil(year, 1, 1) + n;
    YearSpan(Date(year, 1, 1));
    if n == 365 && !IsLeap(year) {
      d := Date(year + 1, 1, 1);
    } else {
      d := CivilFromDays(day);
      DayReadsBack(day);
      YearBetween(d, year);
      OffsetInYear(year, d.month, d.day);
    }
  }

  /** Unix seconds of local midnight on the day a rule names in `year`. */
  method DateSeconds(year: int, rule: RuleDate) returns (seconds: int)
    requires ValidRule(rule)
    ensures exists d :: Names(year, rule, d) && seconds == DaysFromCivil(d.year, d.month, d.day) * SECONDS_PER_DAY
  {
    var days: int;
    ghost var d;
    match rule {
      case MonthWeekDay(month, week, weekday) =>
        var day := WeekdayInMonth(year, month, week, weekday);
        DaysInARow(year, month, day);
        days := DaysFromCivil(year, month, day);
        d := Date(year, month, day);
      case JulianNoLeap(n) =>
        var skip := if IsLeap(year) && n >= 60 then 1 else 0;
        days := DaysFromCivil(year, 1, 1) + n - 1 + skip;
        d := SameDateEveryYear(year, n);
      case Julian(n) =>
        days := DaysFromCivil(year, 1, 1) + n;
        d := CountedDay(year, n);
    }
    seconds := days * SECONDS_PER_DAY;
    assert Names(year, rule, d);
  }
}
