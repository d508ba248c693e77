/** ISO 8601 times: how an instant is written, and how text is read as one.
    Instants are nanoseconds since 1970-01-01 UTC. The reader takes a date alone, or
    a date and a clock with or without seconds, a fraction of one to seven digits and
    an offset; the writer always gives seven digits and the offset zero, so what is
    finer than 100 nanoseconds is cut. A text written reads back to the instant cut,
    exactly up to the last year that four digits can name. */
module IsoTimes {
  import opened Wrappers
  import opened Numerals
  import opened Calendar

  const NANOS_PER_SECOND := 1_000_000_000

  /** The instant, and the offset from UTC in minutes the text named. */
  datatype ParsedTime = ParsedTime(instant: int, offsetMinutes: Option<int>)

  datatype Clock = Clock(hour: nat, minute: nat, second: nat, nanos: nat)

  // ---- Writing ----------------------------------------------------------------

  /** A time before 1970 counts as the epoch. */
  function Since(instant: int): nat {
    if instant < 0 then 0 else instant
  }

  /** UTC, with ticks of 100 nanoseconds. */
  function Timestamp(instant: int): string {
    var since := Since(instant);
    var seconds := since / NANOS_PER_SECOND;
    var secondOfDay := seconds % SECONDS_PER_DAY;
    IsoText(CivilFromDays(seconds / SECONDS_PER_DAY), secondOfDay / 3600, secondOfDay / 60 % 60, secondOfDay % 60,
            since % NANOS_PER_SECOND / 100)
  }

  function DateText(d: Date): string {
    Padded(d.year, 4) + "-" + Padded(d.month, 2) + "-" + Padded(d.day, 2)
  }

  function WithClock(text: string, hour: nat, minute: nat, second: nat): string {
    text + "T" + Padded(hour, 2) + ":" + Padded(minute, 2) + ":" + Padded(second, 2)
  }

  function WithTicks(text: string, ticks: nat): string {
    text + "." + Padded(ticks, 7)
  }

  function IsoText(d: Date, hour: nat, minute: nat, second: nat, ticks: nat): string {
    WithTicks(WithClock(DateText(d), hour, minute, second), ticks) + "+00:00"
  }

  // ---- Reading ------------------------------------------------------------------

  function NumberAt(text: string, at: nat, count: nat): Option<nat> {
    if at + count <= |text| && AllDigits(text[at..at + count]) then Some(NatValue(text[at..at + count])) else None
  }

  predicate CharAt(text: string, at: nat, c: char) {
    at < |text| && text[at] == c
  }

  /** The date a text begins with. */
  function ReadDate(text: string): Option<Date> {
    match (NumberAt(text, 0, 4), NumberAt(text, 5, 2), NumberAt(text, 8, 2))
    case (Some(year), Some(month), Some(day)) =>
      if !CharAt(text, 4, '-') || !CharAt(text, 7, '-') || !ValidDate(Date(year, month, day)) then None
      else Some(Date(year, month, day))
    case _ => None
  }

  function DigitsEnd(text: string, at: nat): (end: nat)
    requires at <= |text|
    ensures at <= end <= |text| && AllDigits(text[at..end]) && (end < |text| ==> !IsDigit(text[end]))
    decreases |text| - at
  {
    if at < |text| && IsDigit(text[at]) then
      var end := DigitsEnd(text, at + 1);
      assert text[at..end] == [text[at]] + text[at + 1..end];
      end
    else at
  }

  /** One to seven digits of a second, as nanoseconds, and where they end. */
  function ReadFraction(text: string, at: nat): Option<(nat, nat)>
    requires at <= |text|
  {
    var end := DigitsEnd(text, at);
    if 1 <= end - at <= 7 then Some((NatValue(text[at..end]) * Power10(9 - (end - at)), end)) else None
  }

  /** The seconds and their fraction, each of which may be left out. */
  function ReadSecond(text: string, at: nat): (r: Option<(nat, nat, nat)>)
    requires at <= |text|
    ensures r.Some? ==> at <= r.value.2 <= |text|
  {
    if !CharAt(text, at, ':') then Some((0, 0, at))
    else
      match NumberAt(text, at + 1, 2)
      case None => None
      case Some(second) =>
        if !CharAt(text, at + 3, '.') then Some((second, 0, at + 3))
        else
          match ReadFraction(text, at + 4)
          case None => None
          case Some((nanos, end)) => Some((second, nanos, end))
  }

  /** The time of day, and where it ends. */
  function ReadClock(text: string, at: nat): (r: Option<(Clock, nat)>)
    ensures r.Some? ==> r.value.1 <= |text|
  {
    if !CharAt(text, at, 'T') || !CharAt(text, at + 3, ':') then None
    else
      match (NumberAt(text, at + 1, 2), NumberAt(text, at + 4, 2))
      case (Some(hour), Some(minute)) =>
        (match ReadSecond(text, at + 6)
         case None => None
         case Some((second, nanos, end)) =>
           if hour > 23 || minute > 59 || second > 59 then None else Some((Clock(hour, minute, second, nanos), end)))
      case _ => None
  }

  /** The offset a text ends with, if it names one. */
  function ReadOffset(text: string, at: nat): Option<Option<int>> {
    if at == |text| then Some(None)
    else if CharAt(text, at, 'Z') then if at + 1 == |text| then Some(Some(0)) else None
    else if CharAt(text, at, '+') || CharAt(text, at, '-') then
      match (NumberAt(text, at + 1, 2), NumberAt(text, at + 4, 2))
      case (Some(hours), Some(minutes)) =>
        if !CharAt(text, at + 3, ':') || hours > 14 || minutes > 59 || at + 6 != |text| then None
        else
          var total: int := hours * 60 + minutes;
          Some(Some(if text[at] == '-' then -total else total))
      case _ => None
    else None
  }

  function Instant(d: Date, c: Clock, offset: Option<int>): ParsedTime {
    var localSeconds := DaysFromCivil(d.year, d.month, d.day) * SECONDS_PER_DAY + c.hour * 3600 + c.minute * 60 + c.second;
    var minutes := if offset.Some? then offset.value else 0;
    ParsedTime((localSeconds - minutes * 60) * NANOS_PER_SECOND + c.nanos, offset)
  }

  /** The time a text stands for; none for any other text. */
  function ParseIso(text: string): Option<ParsedTime> {
    match ReadDate(text)
    case None => None
    case Some(d) =>
      if |text| == 10 then Some(Instant(d, Clock(0, 0, 0, 0), None))
      else
        match ReadClock(text, 10)
        case None => None
        case Some((clock, end)) =>
          match ReadOffset(text, end)
          case None => None
          case Some(offset) => Some(Instant(d, clock, offset))
  }

  // ---- Reading as it runs ------------------------------------------------------------

  method Digits(text: string, position: nat, count: nat) returns (value: Option<nat>)
    ensures value == NumberAt(text, position, count)
  {
    if position + count > |text| {
      return None;
    }
    var slice := text[position..position + count];
    var n := 0;
    for i := 0 to |slice|
      invariant AllDigits(slice[..i]) && n == NatValue(slice[..i])
    {
      if !IsDigit(slice[i]) {
        return None;
      }
      assert slice[..i + 1][..i] == slice[..i];
      n := n * 10 + DigitValue(slice[i]);
    }
    assert slice[..|slice|] == slice;
    value := Some(n);
  }

  method Date10(text: string) returns (d: Option<Date>)
    ensures d == ReadDate(text)
  {
    var year := Digits(text, 0, 4);
    var month := Digits(text, 5, 2);
    var day := Digits(text, 8, 2);
    if year.None? || !CharAt(text, 4, '-') || month.None? || !CharAt(text, 7, '-') || day.None? {
      return None;
    }
    if !(1 <= month.value <= 12) || day.value < 1 || day.value > DaysInMonth(year.value, month.value) {
      return None;
    }
    d := Some(Date(year.value, month.value, day.value));
  }

  lemma {:induction false} DigitsEndSkips(text: string, start: nat, at: nat)
    requires start <= at <= |text| && AllDigits(text[start..at])
    ensures DigitsEnd(text, start) == DigitsEnd(text, at)
    decreases at - start
  {
    if start < at {
      assert text[start..at][0] == text[start] && text[start..at][1..] == text[start + 1..at];
      DigitsEndSkips(text, start + 1, at);
    }
  }

  /** The loop over a fraction's digits, no more than seven of them. */
  method Fraction(text: string, start: nat) returns (r: Option<(nat, nat)>)
    requires start <= |text|
    ensures r == ReadFraction(text, start)
  {
    var position := start;
    var fraction := 0;
    while position < |text| && IsDigit(text[position])
      invariant start <= position <= |text| && position - start <= 7 && AllDigits(text[start..position])
      invariant fraction == NatValue(text[start..position])
    {
      assert text[start..position + 1] == text[start..position] + [text[position]];
      if position - start >= 7 {
        DigitsEndSkips(text, start, position + 1);
        return None;
      }
      assert text[start..position + 1][..position - start] == text[start..position];
      fraction := fraction * 10 + DigitValue(text[position]);
      position := position + 1;
    }
    DigitsEndSkips(text, start, position);
    var count := position - start;
    if count == 0 {
      return None;
    }
    r := Some((fraction * Power10(9 - count), position));
  }

  method Second(text: string, at: nat) returns (r: Option<(nat, nat, nat)>)
    requires at <= |text|
    ensures r == ReadSecond(text, at)
  {
    if !CharAt(text, at, ':') {
      return Some((0, 0, at));
    }
    var second := Digits(text, at + 1, 2);
    if second.None? {
      return None;
    }
    if !CharAt(text, at + 3, '.') {
      return Some((second.value, 0, at + 3));
    }
    var fraction := Fraction(text, at + 4);
    if fraction.None? {
      return None;
    }
    r := Some((second.value, fraction.value.0, fraction.value.1));
  }

  method TimeOfDay(text: string, at: nat) returns (r: Option<(Clock, nat)>)
    ensures r == ReadClock(text, at)
  {
    if !CharAt(text, at, 'T') {
      return None;
    }
    var hour := Digits(text, at + 1, 2);
    if hour.None? || !CharAt(text, at + 3, ':') {
      return None;
    }
    var minute := Digits(text, at + 4, 2);
    if minute.None? {
      return None;
    }
    var rest := Second(text, at + 6);
    if rest.None? || hour.value > 23 || minute.value > 59 || rest.value.0 > 59 {
      return None;
    }
    r := Some((Clock(hour.value, minute.value, rest.value.0, rest.value.1), rest.value.2));
  }

  method Offset(text: string, at: nat) returns (r: Option<Option<int>>)
    requires at <= |text|
    ensures r == ReadOffset(text, at)
  {
    if at == |text| {
      return Some(None);
    }
    var position := at + 1;
    var minutes: int := 0;
    if text[at] == '+' || text[at] == '-' {
      var offsetHours := Digits(text, position, 2);
      if offsetHours.None? || !CharAt(text, position + 2, ':') {
        return None;
      }
      var offsetMinute := Digits(text, position + 3, 2);
      if offsetMinute.None? || offsetHours.value > 14 || offsetMinute.value > 59 {
        return None;
      }
      minutes := offsetHours.value * 60 + offsetMinute.value;
      if text[at] == '-' {
        minutes := -minutes;
      }
      position := position + 5;
    } else if text[at] != 'Z' {
      return None;
    }
    if position != |text| {
      return None;
    }
    r := Some(Some(minutes));
  }

  method ParseIso8601(text: string) returns (r: Option<ParsedTime>)
    ensures r == ParseIso(text)
  {
    var d := Date10(text);
    if d.None? {
      return None;
    }
    var clock, offset := Clock(0, 0, 0, 0), None;
    if 10 < |text| {
      var time := TimeOfDay(text, 10);
      if time.None? {
        return None;
      }
      var named := Offset(text, time.value.1);
      if named.None? {
        return None;
      }
      clock, offset := time.value.0, named.value;
    }
    r := Some(Instant(d.value, clock, offset));
  }

  // ---- What is written reads back ----------------------------------------------------

  lemma NumberEnds(pre: string, n: nat, width: nat)
    requires width >= 1 && n < Power10(width)
    ensures NumberAt(pre + Padded(n, width), |pre|, width) == Some(n)
    ensures |pre + Padded(n, width)| == |pre| + width
  {
    PaddedReadsBack(n, width);
    assert (pre + Padded(n, width))[|pre|..|pre| + width] == Padded(n, width);
  }

  /** What a text holds, every longer one holds. */
  lemma NumberStays(text: string, post: string, at: nat, count: nat)
    requires NumberAt(text, at, count).Some?
    ensures NumberAt(text + post, at, count) == NumberAt(text, at, count)
  {
    assert (text + post)[at..at + count] == text[at..at + count];
  }

  /** What the text of a date holds. */
  ghost predicate HoldsDate(text: string, year: int, month: nat, day: nat) {
    && NumberAt(text, 0, 4) == Some(year) && CharAt(text, 4, '-')
    && NumberAt(text, 5, 2) == Some(month) && CharAt(text, 7, '-') && NumberAt(text, 8, 2) == Some(day)
  }

  lemma DateTextHolds(d: Date)
    requires 0 <= d.year <= 9999 && d.month < 100 && d.day < 100
    ensures |DateText(d)| == 10 && HoldsDate(DateText(d), d.year, d.month, d.day)
  {
    Powers();
    var y := Padded(d.year, 4);
    NumberEnds("", d.year, 4);
    assert "" + y == y;
    var month := y + "-" + Padded(d.month, 2);
    NumberStays(y, "-", 0, 4);
    NumberEnds(y + "-", d.month, 2);
    NumberStays(y + "-", Padded(d.month, 2), 0, 4);
    NumberEnds(month + "-", d.day, 2);
    NumberStays(month, "-", 0, 4);
    NumberStays(month, "-", 5, 2);
    NumberStays(month + "-", Padded(d.day, 2), 0, 4);
    NumberStays(month + "-", Padded(d.day, 2), 5, 2);
  }

  lemma DateStays(text: string, post: string, year: int, month: nat, day: nat)
    requires HoldsDate(text, year, month, day)
    ensures HoldsDate(text + post, year, month, day)
  {
    NumberStays(text, post, 0, 4);
    NumberStays(text, post, 5, 2);
    NumberStays(text, post, 8, 2);
  }

  /** What the text of a time of day holds from `at` on. */
  ghost predicate HoldsClock(text: string, at: nat, hour: nat, minute: nat, second: nat) {
    && CharAt(text, at, 'T') && NumberAt(text, at + 1, 2) == Some(hour)
    && CharAt(text, at + 3, ':') && NumberAt(text, at + 4, 2) == Some(minute)
    && CharAt(text, at + 6, ':') && NumberAt(text, at + 7, 2) == Some(second)
  }

  lemma ClockTextHolds(text: string, hour: nat, minute: nat, second: nat)
    requires hour < 100 && minute < 100 && second < 100
    ensures |WithClock(text, hour, minute, second)| == |text| + 9
    ensures HoldsClock(WithClock(text, hour, minute, second), |text|, hour, minute, second)
  {
    Powers();
    var h, m, s := Padded(hour, 2), Padded(minute, 2), Padded(second, 2);
    var t1 := text + "T";
    NumberEnds(t1, hour, 2);
    var t2 := t1 + h;
    NumberStays(t2, ":", |text| + 1, 2);
    var t3 := t2 + ":";
    NumberEnds(t3, minute, 2);
    NumberStays(t3, m, |text| + 1, 2);
    var t4 := t3 + m;
    NumberStays(t4, ":", |text| + 1, 2);
    NumberStays(t4, ":", |text| + 4, 2);
    var t5 := t4 + ":";
    NumberEnds(t5, second, 2);
    NumberStays(t5, s, |text| + 1, 2);
    NumberStays(t5, s, |text| + 4, 2);
    HoldsClockParts(t1, t2, t3, t4, t5, h, m, s, text);
  }

  lemma HoldsClockParts(t1: string, t2: string, t3: string, t4: string, t5: string,
                        h: string, m: string, s: string, text: string)
    requires |h| == 2 && |m| == 2 && |s| == 2
    requires t1 == text + "T" && t2 == t1 + h && t3 == t2 + ":" && t4 == t3 + m && t5 == t4 + ":"
    ensures CharAt(t5 + s, |text|, 'T') && CharAt(t5 + s, |text| + 3, ':') && CharAt(t5 + s, |text| + 6, ':')
  {
  }

  lemma ClockStays(text: string, post: string, at: nat, hour: nat, minute: nat, second: nat)
    requires HoldsClock(text, at, hour, minute, second)
    ensures HoldsClock(text + post, at, hour, minute, second)
  {
    NumberStays(text, post, at + 1, 2);
    NumberStays(text, post, at + 4, 2);
    NumberStays(text, post, at + 7, 2);
  }

  lemma {:induction false} DigitsEndAfter(text: string, digits: string, post: string)
    requires AllDigits(digits) && post != "" && !IsDigit(post[0])
    ensures DigitsEnd(text + digits + post, |text|) == |text| + |digits|
    ensures (text + digits + post)[|text|..|text| + |digits|] == digits
  {
    var all := text + digits + post;
    assert all[|text|..|text| + |digits|] == digits;
    DigitsEndSkips(all, |text|, |text| + |digits|);
    assert all[|text| + |digits|] == post[0];
  }

  lemma TicksReadBack(text: string, ticks: nat)
    requires ticks < 10_000_000
    ensures
      var all := WithTicks(text, ticks) + "+00:00";
      && CharAt(all, |text|, '.') && |WithTicks(text, ticks)| == |text| + 8
      && ReadFraction(all, |text| + 1) == Some((ticks * 100, |text| + 8))
  {
    Powers();
    var f := Padded(ticks, 7);
    PaddedReadsBack(ticks, 7);
    DigitsEndAfter(text + ".", f, "+00:00");
  }

  lemma ZeroOffsetReadsBack(text: string)
    ensures ReadOffset(text + "+00:00", |text|) == Some(Some(0))
  {
    var all := text + "+00:00";
    assert all[|text| + 1..|text| + 3] == "00" && all[|text| + 4..|text| + 6] == "00";
    assert "00"[..1] == "0" && "0"[..0] == "";
    assert NatValue("00") == 0;
  }

  lemma HeldIsRead(text: string, d: Date, clock: Clock)
    requires ValidDate(d) && clock.hour <= 23 && clock.minute <= 59 && clock.second <= 59
    requires |text| > 20 && HoldsDate(text, d.year, d.month, d.day)
    requires HoldsClock(text, 10, clock.hour, clock.minute, clock.second) && CharAt(text, 19, '.')
    requires ReadFraction(text, 20) == Some((clock.nanos, 27)) && 27 <= |text|
    requires ReadOffset(text, 27) == Some(Some(0))
    ensures ParseIso(text) == Some(Instant(d, clock, Some(0)))
  {
    assert ReadDate(text) == Some(d);
    assert ReadClock(text, 10) == Some((clock, 27));
  }

  lemma TextReadsBack(d: Date, hour: nat, minute: nat, second: nat, ticks: nat)
    requires ValidDate(d) && 0 <= d.year <= 9999
    requires hour <= 23 && minute <= 59 && second <= 59 && ticks < 10_000_000
    ensures
      ParseIso(IsoText(d, hour, minute, second, ticks)) == Some(Instant(d, Clock(hour, minute, second, ticks * 100), Some(0)))
  {
    var date := DateText(d);
    var timed := WithClock(date, hour, minute, second);
    var ticked := WithTicks(timed, ticks);
    DateTextHolds(d);
    ClockTextHolds(date, hour, minute, second);
    var time := "T" + Padded(hour, 2) + ":" + Padded(minute, 2) + ":" + Padded(second, 2);
    ClockAppended(date, hour, minute, second);
    DateStays(date, time, d.year, d.month, d.day);
    TicksAppended(timed, ticks);
    var rest := "." + Padded(ticks, 7) + "+00:00";
    DateStays(timed, rest, d.year, d.month, d.day);
    ClockStays(timed, rest, 10, hour, minute, second);
    TicksReadBack(timed, ticks);
    ZeroOffsetReadsBack(ticked);
    HeldIsRead(ticked + "+00:00", d, Clock(hour, minute, second, ticks * 100));
  }

  lemma ClockAppended(text: string, hour: nat, minute: nat, second: nat)
    ensures WithClock(text, hour, minute, second)
      == text + ("T" + Padded(hour, 2) + ":" + Padded(minute, 2) + ":" + Padded(second, 2))
  {
  }

  lemma TicksAppended(text: string, ticks: nat)
    ensures WithTicks(text, ticks) + "+00:00" == text + ("." + Padded(ticks, 7) + "+00:00")
  {
  }

  /** The instant a written time keeps: whole ticks, and nothing before 1970. */
  function Kept(instant: int): int {
    Since(instant) / 100 * 100
  }

  function YearAt(instant: int): int {
    CivilFromDays(Since(instant) / NANOS_PER_SECOND / SECONDS_PER_DAY).year
  }

  lemma NanosSplit(since: nat)
    ensures
      var (seconds, ticks) := (since / NANOS_PER_SECOND, since % NANOS_PER_SECOND / 100);
      && ticks < 10_000_000
      && At(seconds / SECONDS_PER_DAY, seconds % SECONDS_PER_DAY, ticks * 100) == since / 100 * 100
  {
    var seconds, part := since / NANOS_PER_SECOND, since % NANOS_PER_SECOND;
    assert since == seconds * NANOS_PER_SECOND + part;
    assert since / 100 == seconds * 10_000_000 + part / 100;
  }

  lemma InstantOf(d: Date, days: int, hour: nat, minute: nat, second: nat, nanos: nat)
    requires days == DaysFromCivil(d.year, d.month, d.day)
    ensures Instant(d, Clock(hour, minute, second, nanos), Some(0))
      == ParsedTime(At(days, hour * 3600 + minute * 60 + second, nanos), Some(0))
  {
  }

  function At(days: int, secondOfDay: nat, nanos: nat): int {
    (days * SECONDS_PER_DAY + secondOfDay) * NANOS_PER_SECOND + nanos
  }

  lemma FieldsReadBack(d: Date, days: int, hour: nat, minute: nat, second: nat, ticks: nat)
    requires ValidDate(d) && 0 <= d.year <= 9999 && days == DaysFromCivil(d.year, d.month, d.day)
    requires hour <= 23 && minute <= 59 && second <= 59 && ticks < 10_000_000
    ensures ParseIso(IsoText(d, hour, minute, second, ticks))
      == Some(ParsedTime(At(days, hour * 3600 + minute * 60 + second, ticks * 100), Some(0)))
  {
    TextReadsBack(d, hour, minute, second, ticks);
    InstantOf(d, days, hour, minute, second, ticks * 100);
  }

  predicate DigitFifth(text: string) {
    |text| > 4 && IsDigit(text[4])
  }

  lemma FifthStays(text: string, post: string)
    requires DigitFifth(text)
    ensures DigitFifth(text + post)
  {
  }

  /** A year of five digits leaves a digit where the first dash should be. */
  lemma LongYearFifth(d: Date)
    requires d.year > 9999
    ensures DigitFifth(DateText(d))
  {
    Powers();
    var y := Padded(d.year, 4);
    DecimalReadsBack(d.year);
    DecimalLength(d.year, 4);
    assert y == "" + "" + Decimal(d.year);
    assert DigitFifth(y);
    FifthStays(y, "-");
    FifthStays(y + "-", Padded(d.month, 2));
    FifthStays(y + "-" + Padded(d.month, 2), "-");
    FifthStays(y + "-" + Padded(d.month, 2) + "-", Padded(d.day, 2));
  }

  lemma LongYearIsRefused(d: Date, hour: nat, minute: nat, second: nat, ticks: nat)
    requires d.year > 9999
    ensures ParseIso(IsoText(d, hour, minute, second, ticks)) == None
  {
    var timed := WithClock(DateText(d), hour, minute, second);
    LongYearFifth(d);
    ClockAppended(DateText(d), hour, minute, second);
    FifthStays(DateText(d), "T" + Padded(hour, 2) + ":" + Padded(minute, 2) + ":" + Padded(second, 2));
    TicksAppended(timed, ticks);
    FifthStays(timed, "." + Padded(ticks, 7) + "+00:00");
    FifthIsRefused(IsoText(d, hour, minute, second, ticks));
  }

  lemma FifthIsRefused(text: string)
    requires DigitFifth(text)
    ensures ParseIso(text) == None
  {
  }

  lemma DateInstantReadsBack(d: Date, days: int, hour: nat, minute: nat, second: nat, ticks: nat)
    requires ValidDate(d) && d.year >= 0 && days == DaysFromCivil(d.year, d.month, d.day)
    requires hour <= 23 && minute <= 59 && second <= 59 && ticks < 10_000_000
    ensures ParseIso(IsoText(d, hour, minute, second, ticks)) ==
      if d.year <= 9999 then Some(ParsedTime(At(days, hour * 3600 + minute * 60 + second, ticks * 100), Some(0))) else None
  {
    if d.year <= 9999 {
      FieldsReadBack(d, days, hour, minute, second, ticks);
    } else {
      LongYearIsRefused(d, hour, minute, second, ticks);
    }
  }

  /** The date and clock a timestamp prints. */
  lemma TimestampPrints(instant: int) returns (d: Date, days: int, hour: nat, minute: nat, second: nat, ticks: nat)
    ensures ValidDate(d) && d.year >= 1970 && d.year == YearAt(instant) && days == DaysFromCivil(d.year, d.month, d.day)
    ensures days == Since(instant) / NANOS_PER_SECOND / SECONDS_PER_DAY
    ensures hour <= 23 && minute <= 59 && second <= 59
    ensures hour * 3600 + minute * 60 + second == Since(instant) / NANOS_PER_SECOND % SECONDS_PER_DAY
    ensures ticks == Since(instant) % NANOS_PER_SECOND / 100
    ensures Timestamp(instant) == IsoText(d, hour, minute, second, ticks)
  {
    var since := Since(instant);
    days := since / NANOS_PER_SECOND / SECONDS_PER_DAY;
    var t := since / NANOS_PER_SECOND % SECONDS_PER_DAY;
    d := CivilFromDays(days);
    DayReadsBack(days);
    NotBeforeEpoch(days);
    ClockParts(t);
    hour, minute, second := t / 3600, t / 60 % 60, t % 60;
    ticks := since % NANOS_PER_SECOND / 100;
  }

  lemma KeptIs(instant: int, days: int, secondOfDay: nat, ticks: nat)
    requires days == Since(instant) / NANOS_PER_SECOND / SECONDS_PER_DAY
    requires secondOfDay == Since(instant) / NANOS_PER_SECOND % SECONDS_PER_DAY
    requires ticks == Since(instant) % NANOS_PER_SECOND / 100
    ensures ticks < 10_000_000 && At(days, secondOfDay, ticks * 100) == Kept(instant)
  {
    NanosSplit(Since(instant));
  }

  /** A written time reads back to its instant in whole ticks (a time before 1970
      as the epoch), with the offset it names, exactly up to the year 9999. */
  lemma TimestampReadsBack(instant: int)
    ensures ParseIso(Timestamp(instant)) ==
      if YearAt(instant) <= 9999 then Some(ParsedTime(Kept(instant), Some(0))) else None
  {
    var d, days, hour, minute, second, ticks := TimestampPrints(instant);
    var secondOfDay := hour * 3600 + minute * 60 + second;
    KeptIs(instant, days, secondOfDay, ticks);
    PrintedReadsBack(Timestamp(instant), Kept(instant), d, days, hour, minute, second, ticks);
  }

  lemma PrintedReadsBack(text: string, kept: int, d: Date, days: int, hour: nat, minute: nat, second: nat, ticks: nat)
    requires ValidDate(d) && d.year >= 0 && days == DaysFromCivil(d.year, d.month, d.day)
    requires hour <= 23 && minute <= 59 && second <= 59 && ticks < 10_000_000
    requires text == IsoText(d, hour, minute, second, ticks)
    requires kept == At(days, hour * 3600 + minute * 60 + second, ticks * 100)
    ensures ParseIso(text) == if d.year <= 9999 then Some(ParsedTime(kept, Some(0))) else None
  {
    DateInstantReadsBack(d, days, hour, minute, second, ticks);
  }

  lemma NotBeforeEpoch(days: nat)
    ensures CivilFromDays(days).year >= 1970
  {
    var d := CivilFromDays(days);
    DayReadsBack(days);
    EarlierYear(d);
  }

  lemma EarlierYear(d: Date)
    requires ValidDate(d) && DaysFromCivil(d.year, d.month, d.day) >= 0
    ensures d.year >= 1970
  {
    if d.year < 1970 {
      DateParts(d);
      YearLength(MarchYear(d) % 400);
    }
  }
}
