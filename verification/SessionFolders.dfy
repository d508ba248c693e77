/** Session folder names: the local start of a session as text, and back. A name is
    a date and a clock of fixed width, with or without a number after it for a second
    session in the same second. It reads back to the second the session started in,
    and exactly the years that have room for their four digits do; what the width
    cannot hold is refused, never read as something else. */
module SessionFolders {
  import opened Wrappers
  import opened Numerals
  import opened Calendar

  const MS_PER_SECOND := 1000

  /** `yyyy-MM-dd HH-mm-ss`, for milliseconds since the epoch. */
  function FolderName(localMs: int): string {
    var seconds := localMs / MS_PER_SECOND;
    Stamp(CivilFromDays(seconds / SECONDS_PER_DAY), seconds % SECONDS_PER_DAY)
  }

  function Stamp(d: Date, secondOfDay: nat): string {
    StampText(d.year, d.month, d.day, secondOfDay / 3600, secondOfDay / 60 % 60, secondOfDay % 60)
  }

  function StampText(year: int, month: int, day: int, hour: int, minute: int, second: int): string {
    Padded(year, 4) + "-" + Padded(month, 2) + "-" + Padded(day, 2) + " "
    + Padded(hour, 2) + "-" + Padded(minute, 2) + "-" + Padded(second, 2)
  }

  /** Where " (" first stands from `i` on; the length when nowhere. */
  function FindMark(name: string, i: nat): (at: nat)
    requires i <= |name|
    ensures i <= at <= |name| && (at < |name| ==> at + 1 < |name| && name[at] == ' ' && name[at + 1] == '(')
    ensures forall k | i <= k < at :: !(k + 1 < |name| && name[k] == ' ' && name[k + 1] == '(')
    decreases |name| - i
  {
    if i + 1 < |name| && name[i] == ' ' && name[i + 1] == '(' then i
    else if i < |name| then FindMark(name, i + 1)
    else |name|
  }

  /** The name without a ` (n)` after it. */
  function StampOf(name: string): Option<string> {
    var at := FindMark(name, 0);
    if at == |name| then Some(name)
    else
      var rest := name[at + 2..];
      if rest == "" || rest[|rest| - 1] != ')' then None
      else
        var number := rest[..|rest| - 1];
        if number == "" || !AllDigits(number) then None else Some(name[..at])
  }

  predicate Shaped(stamp: string) {
    && |stamp| == 19
    && forall i | 0 <= i < 19 ::
         if i in {4, 7, 13, 16} then stamp[i] == '-'
         else if i == 10 then stamp[i] == ' '
         else IsDigit(stamp[i])
  }

  function Field(stamp: string, from: nat, to: nat): nat
    requires from <= to <= |stamp| && AllDigits(stamp[from..to])
  {
    NatValue(stamp[from..to])
  }

  function ParseStamp(stamp: string): Option<int> {
    if !Shaped(stamp) then None
    else
      var (year, month, day) := (Field(stamp, 0, 4), Field(stamp, 5, 7), Field(stamp, 8, 10));
      var (hour, minute, second) := (Field(stamp, 11, 13), Field(stamp, 14, 16), Field(stamp, 17, 19));
      if !(1 <= month <= 12) || !(1 <= day <= 31) || hour > 23 || minute > 59 || second > 59 then None
      else Some(Moment(DaysFromCivil(year, month, day), hour * 3600 + minute * 60 + second))
  }

  function Moment(days: int, secondOfDay: nat): int {
    (days * SECONDS_PER_DAY + secondOfDay) * MS_PER_SECOND
  }

  /** The local start a folder name stands for; none for any other name. */
  function ParseFolderName(name: string): Option<int> {
    match StampOf(name)
    case None => None
    case Some(stamp) => ParseStamp(stamp)
  }

  // ---- Names read back -----------------------------------------------------------

  lemma DatePart(y: string, m: string, d: string)
    requires |y| == 4 && |m| == 2 && |d| == 2 && AllDigits(y) && AllDigits(m) && AllDigits(d)
    ensures
      var t := y + "-" + m + "-" + d;
      && |t| == 10 && t[0..4] == y && t[5..7] == m && t[8..10] == d
      && (forall i | 0 <= i < 10 :: if i == 4 || i == 7 then t[i] == '-' else IsDigit(t[i]))
  {
  }

  lemma ClockPart(h: string, n: string, s: string)
    requires |h| == 2 && |n| == 2 && |s| == 2 && AllDigits(h) && AllDigits(n) && AllDigits(s)
    ensures
      var t := h + "-" + n + "-" + s;
      && |t| == 8 && t[0..2] == h && t[3..5] == n && t[6..8] == s
      && (forall i | 0 <= i < 8 :: if i == 2 || i == 5 then t[i] == '-' else IsDigit(t[i]))
  {
  }

  lemma Regroup(y: string, m: string, d: string, h: string, n: string, s: string)
    ensures y + "-" + m + "-" + d + " " + h + "-" + n + "-" + s == (y + "-" + m + "-" + d) + " " + (h + "-" + n + "-" + s)
  {
  }

  lemma JoinedFields(y: string, m: string, d: string, h: string, n: string, s: string)
    requires |y| == 4 && |m| == 2 && |d| == 2 && |h| == 2 && |n| == 2 && |s| == 2
    requires AllDigits(y) && AllDigits(m) && AllDigits(d) && AllDigits(h) && AllDigits(n) && AllDigits(s)
    ensures
      var t := y + "-" + m + "-" + d + " " + h + "-" + n + "-" + s;
      && Shaped(t) && t[0..4] == y && t[5..7] == m && t[8..10] == d && t[11..13] == h && t[14..16] == n && t[17..19] == s
  {
    DatePart(y, m, d);
    ClockPart(h, n, s);
    Regroup(y, m, d, h, n, s);
    DateThenClock(y + "-" + m + "-" + d, h + "-" + n + "-" + s);
  }

  lemma DateThenClock(date: string, clock: string)
    requires |date| == 10 && (forall i | 0 <= i < 10 :: if i == 4 || i == 7 then date[i] == '-' else IsDigit(date[i]))
    requires |clock| == 8 && (forall i | 0 <= i < 8 :: if i == 2 || i == 5 then clock[i] == '-' else IsDigit(clock[i]))
    ensures
      var t := date + " " + clock;
      && Shaped(t) && t[0..4] == date[0..4] && t[5..7] == date[5..7] && t[8..10] == date[8..10]
      && t[11..13] == clock[0..2] && t[14..16] == clock[3..5] && t[17..19] == clock[6..8]
  {
    var t := date + " " + clock;
    forall i | 0 <= i < 19
      ensures if i in {4, 7, 13, 16} then t[i] == '-' else if i == 10 then t[i] == ' ' else IsDigit(t[i])
    {
      assert i < 10 ==> t[i] == date[i];
      assert i > 10 ==> t[i] == clock[i - 11];
    }
  }

  /** Every field of a stamp reads back. */
  lemma FieldsReadBack(year: nat, month: nat, day: nat, hour: nat, minute: nat, second: nat)
    requires year <= 9999 && month < 100 && day < 100 && hour < 100 && minute < 100 && second < 100
    ensures
      var t := StampText(year, month, day, hour, minute, second);
      && Shaped(t) && Field(t, 0, 4) == year && Field(t, 5, 7) == month && Field(t, 8, 10) == day
      && Field(t, 11, 13) == hour && Field(t, 14, 16) == minute && Field(t, 17, 19) == second
  {
    Powers();
    PaddedReadsBack(year, 4);
    PaddedReadsBack(month, 2);
    PaddedReadsBack(day, 2);
    PaddedReadsBack(hour, 2);
    PaddedReadsBack(minute, 2);
    PaddedReadsBack(second, 2);
    JoinedFields(Padded(year, 4), Padded(month, 2), Padded(day, 2), Padded(hour, 2), Padded(minute, 2), Padded(second, 2));
  }

  predicate NoBracket(s: string) {
    forall i | 0 <= i < |s| :: s[i] != '('
  }

  lemma PlainStampOf(name: string)
    requires NoBracket(name)
    ensures StampOf(name) == Some(name)
  {
  }

  lemma {:induction false} DecimalDigits(n: nat)
    ensures AllDigits(Decimal(n))
  {
    DecimalReadsBack(n);
  }

  lemma PaddedIsPlain(n: int, width: nat)
    ensures NoBracket(Padded(n, width)) && |Padded(n, width)| >= width
    ensures n < 0 ==> Padded(n, width) != "" && Padded(n, width)[0] == '-'
  {
    DecimalDigits(if n < 0 then -n else n);
  }

  lemma PlainSum(a: string, b: string)
    requires NoBracket(a) && NoBracket(b)
    ensures NoBracket(a + b)
  {
  }

  lemma StampIsPlain(year: int, month: int, day: int, hour: int, minute: int, second: int)
    ensures NoBracket(StampText(year, month, day, hour, minute, second))
  {
    var y, m, d := Padded(year, 4), Padded(month, 2), Padded(day, 2);
    var h, n, s := Padded(hour, 2), Padded(minute, 2), Padded(second, 2);
    PaddedIsPlain(year, 4);
    PaddedIsPlain(month, 2);
    PaddedIsPlain(day, 2);
    PaddedIsPlain(hour, 2);
    PaddedIsPlain(minute, 2);
    PaddedIsPlain(second, 2);
    PlainSum(y, "-");
    PlainSum(y + "-", m);
    PlainSum(y + "-" + m, "-");
    PlainSum(y + "-" + m + "-", d);
    PlainSum(y + "-" + m + "-" + d, " ");
    var date := y + "-" + m + "-" + d + " ";
    PlainSum(date, h);
    PlainSum(date + h, "-");
    PlainSum(date + h + "-", n);
    PlainSum(date + h + "-" + n, "-");
    PlainSum(date + h + "-" + n + "-", s);
  }

  /** A year of more than four characters, or with a sign, spoils the shape. */
  lemma LongYearIsRefused(year: int, rest: string)
    requires (year < 0 || year > 9999) && |rest| == 15
    ensures !Shaped(Padded(year, 4) + rest)
  {
    Powers();
    PaddedIsPlain(year, 4);
    if year > 9999 {
      DecimalLength(year, 4);
      assert |Padded(year, 4)| > 4;
    } else {
      assert (Padded(year, 4) + rest)[0] == '-';
    }
  }

  /** The start of the second a moment lies in. */
  function WholeSecond(ms: int): int {
    ms / MS_PER_SECOND * MS_PER_SECOND
  }

  function YearAt(ms: int): int {
    CivilFromDays(ms / MS_PER_SECOND / SECONDS_PER_DAY).year
  }

  lemma FieldsGiveMoment(stamp: string, d: Date, hour: nat, minute: nat, second: nat)
    requires ValidDate(d) && hour <= 23 && minute <= 59 && second <= 59 && Shaped(stamp)
    requires Field(stamp, 0, 4) == d.year && Field(stamp, 5, 7) == d.month && Field(stamp, 8, 10) == d.day
    requires Field(stamp, 11, 13) == hour && Field(stamp, 14, 16) == minute && Field(stamp, 17, 19) == second
    ensures ParseStamp(stamp) == Some(Moment(DaysFromCivil(d.year, d.month, d.day), hour * 3600 + minute * 60 + second))
  {
  }

  lemma ClockStampReadsBack(d: Date, hour: nat, minute: nat, second: nat)
    requires ValidDate(d) && 0 <= d.year <= 9999 && hour <= 23 && minute <= 59 && second <= 59
    ensures
      var stamp := StampText(d.year, d.month, d.day, hour, minute, second);
      && Shaped(stamp)
      && ParseStamp(stamp) == Some(Moment(DaysFromCivil(d.year, d.month, d.day), hour * 3600 + minute * 60 + second))
  {
    FieldsReadBack(d.year, d.month, d.day, hour, minute, second);
    FieldsGiveMoment(StampText(d.year, d.month, d.day, hour, minute, second), d, hour, minute, second);
  }

  lemma DateStampReadsBack(d: Date, t: nat)
    requires ValidDate(d) && 0 <= d.year <= 9999 && t < SECONDS_PER_DAY
    ensures Shaped(Stamp(d, t)) && ParseStamp(Stamp(d, t)) == Some(Moment(DaysFromCivil(d.year, d.month, d.day), t))
  {
    ClockParts(t);
    ClockStampReadsBack(d, t / 3600, t / 60 % 60, t % 60);
  }

  lemma DateStampIsPlain(d: Date, t: nat)
    ensures NoBracket(Stamp(d, t))
  {
    StampIsPlain(d.year, d.month, d.day, t / 3600, t / 60 % 60, t % 60);
  }

  lemma OtherYearIsRefused(d: Date, t: nat)
    requires ValidDate(d) && !(0 <= d.year <= 9999) && t < SECONDS_PER_DAY
    ensures !Shaped(Stamp(d, t))
  {
    ClockParts(t);
    Powers();
    var m, y, h, n, s := Padded(d.month, 2), Padded(d.day, 2), Padded(t / 3600, 2), Padded(t / 60 % 60, 2), Padded(t % 60, 2);
    PaddedReadsBack(d.month, 2);
    PaddedReadsBack(d.day, 2);
    PaddedReadsBack(t / 3600, 2);
    PaddedReadsBack(t / 60 % 60, 2);
    PaddedReadsBack(t % 60, 2);
    YearFirst(Padded(d.year, 4), m, y, h, n, s);
    LongYearIsRefused(d.year, "-" + m + "-" + y + " " + h + "-" + n + "-" + s);
  }

  lemma YearFirst(y: string, m: string, d: string, h: string, n: string, s: string)
    ensures y + "-" + m + "-" + d + " " + h + "-" + n + "-" + s == y + ("-" + m + "-" + d + " " + h + "-" + n + "-" + s)
  {
  }

  lemma SecondsSplit(ms: int)
    ensures
      var seconds := ms / MS_PER_SECOND;
      WholeSecond(ms) == Moment(seconds / SECONDS_PER_DAY, seconds % SECONDS_PER_DAY)
  {
  }

  lemma NameReadsBack(ms: int)
    requires 0 <= YearAt(ms) <= 9999
    ensures Shaped(FolderName(ms)) && ParseStamp(FolderName(ms)) == Some(WholeSecond(ms))
  {
    var seconds := ms / MS_PER_SECOND;
    var days, t := seconds / SECONDS_PER_DAY, seconds % SECONDS_PER_DAY;
    DayReadsBack(days);
    DateStampReadsBack(CivilFromDays(days), t);
    SecondsSplit(ms);
  }

  /** A folder name reads back to the second its session started in, exactly for
      the years the name has room for. */
  lemma FolderNameReadsBack(ms: int)
    ensures ParseFolderName(FolderName(ms)) == if 0 <= YearAt(ms) <= 9999 then Some(WholeSecond(ms)) else None
  {
    var seconds := ms / MS_PER_SECOND;
    var days, t := seconds / SECONDS_PER_DAY, seconds % SECONDS_PER_DAY;
    DateStampIsPlain(CivilFromDays(days), t);
    PlainStampOf(FolderName(ms));
    if 0 <= YearAt(ms) <= 9999 {
      NameReadsBack(ms);
    } else {
      DayReadsBack(days);
      OtherYearIsRefused(CivilFromDays(days), t);
    }
  }

  /** So does the name of a second session in the same second. */
  lemma NumberedNameReadsBack(ms: int, n: nat)
    requires 0 <= YearAt(ms) <= 9999
    ensures ParseFolderName(FolderName(ms) + " (" + Decimal(n) + ")") == Some(WholeSecond(ms))
  {
    NameReadsBack(ms);
    DecimalDigits(n);
    SuffixIsDropped(FolderName(ms), Decimal(n));
  }

  lemma SuffixIsDropped(stamp: string, number: string)
    requires Shaped(stamp) && number != "" && AllDigits(number)
    ensures StampOf(stamp + " (" + number + ")") == Some(stamp)
  {
    var name := stamp + " (" + number + ")";
    var at := FindMark(name, 0);
    assert name[19] == ' ' && name[20] == '(';
    forall k | 0 <= k < 19 ensures !(name[k] == ' ' && name[k + 1] == '(') {
      assert name[k] == stamp[k] && name[11] == stamp[11];
    }
    assert at == 19;
    assert name[21..] == number + ")";
    assert (number + ")")[..|number|] == number;
    assert name[..19] == stamp;
  }

  // ---- Exactly which names are read --------------------------------------------------------

  predicate Spells(s: string, n: nat) {
    AllDigits(s) && NatValue(s) == n
  }

  /** `yyyy-MM-dd HH-mm-ss` of a moment; a day past its month's end runs on into the next. */
  ghost predicate IsStampText(s: string, ms: int) {
    && |s| == 19 && s[4] == '-' && s[7] == '-' && s[10] == ' ' && s[13] == '-' && s[16] == '-'
    && exists year: nat, month: nat, day: nat, hour: nat, minute: nat, second: nat ::
         AreFields(s, year, month, day, hour, minute, second)
         && ms == (DaysFromCivil(year, month, day) * 86_400 + hour * 3600 + minute * 60 + second) * 1000
  }

  predicate AreFields(s: string, year: nat, month: nat, day: nat, hour: nat, minute: nat, second: nat)
    requires |s| == 19
  {
    && Spells(s[0..4], year) && Spells(s[5..7], month) && Spells(s[8..10], day)
    && Spells(s[11..13], hour) && Spells(s[14..16], minute) && Spells(s[17..19], second)
    && 1 <= month <= 12 && 1 <= day <= 31 && hour < 24 && minute < 60 && second < 60
  }

  /** That, or that and a number in brackets. */
  ghost predicate IsFolderName(name: string, ms: int) {
    || IsStampText(name, ms)
    || (|name| >= 23 && IsStampText(name[..19], ms) && name[19] == ' ' && name[20] == '(' && name[|name| - 1] == ')'
        && AllDigits(name[21..|name| - 1]))
  }

  lemma ShapedFields(s: string)
    requires |s| == 19
    ensures Shaped(s) <==>
      && s[4] == '-' && s[7] == '-' && s[10] == ' ' && s[13] == '-' && s[16] == '-'
      && AllDigits(s[0..4]) && AllDigits(s[5..7]) && AllDigits(s[8..10])
      && AllDigits(s[11..13]) && AllDigits(s[14..16]) && AllDigits(s[17..19])
  {
    if AllDigits(s[0..4]) && AllDigits(s[5..7]) && AllDigits(s[8..10]) && AllDigits(s[11..13]) && AllDigits(s[14..16])
       && AllDigits(s[17..19]) {
      DigitsThere(s, 0, 4);
      DigitsThere(s, 5, 7);
      DigitsThere(s, 8, 10);
      DigitsThere(s, 11, 13);
      DigitsThere(s, 14, 16);
      DigitsThere(s, 17, 19);
    }
  }

  lemma DigitsThere(s: string, from: nat, to: nat)
    requires from <= to <= |s| && AllDigits(s[from..to])
    ensures forall i | from <= i < to :: IsDigit(s[i])
  {
    forall i | from <= i < to ensures IsDigit(s[i]) {
      assert s[from..to][i - from] == s[i];
    }
  }

  lemma StampIff(s: string, ms: int)
    ensures ParseStamp(s) == Some(ms) <==> IsStampText(s, ms)
  {
    if |s| == 19 {
      ShapedFields(s);
      if ParseStamp(s) == Some(ms) {
        assert AreFields(s, Field(s, 0, 4), Field(s, 5, 7), Field(s, 8, 10), Field(s, 11, 13), Field(s, 14, 16), Field(s, 17, 19));
      }
    }
  }

  lemma StampHasNoMark(s: string)
    requires Shaped(s)
    ensures NoBracket(s)
  {
  }

  lemma MarkIsFound(name: string, at: nat)
    requires at + 1 < |name| && name[at] == ' ' && name[at + 1] == '(' && NoBracket(name[..at])
    ensures FindMark(name, 0) == at
  {
    forall k | 0 < k <= at ensures name[k] != '(' {
      if k < at {
        assert name[..at][k] == name[k];
      }
    }
  }

  /** A name is read as a moment exactly when it is that moment's name, with or without a
      number after it. */
  lemma ReadsExactlyNames(name: string, ms: int)
    ensures ParseFolderName(name) == Some(ms) <==> IsFolderName(name, ms)
  {
    if ParseFolderName(name) == Some(ms) {
      var at := FindMark(name, 0);
      StampIff(StampOf(name).value, ms);
      if at < |name| {
        assert name[at + 2..][|name| - at - 3] == name[|name| - 1];
        assert name[at + 2..][..|name| - at - 3] == name[at + 2..|name| - 1];
      }
    }
    if IsFolderName(name, ms) {
      NameReads(name, ms);
    }
  }

  lemma NameReads(name: string, ms: int)
    requires IsFolderName(name, ms)
    ensures ParseFolderName(name) == Some(ms)
  {
    if IsStampText(name, ms) {
      StampIff(name, ms);
      StampHasNoMark(name);
      PlainStampOf(name);
    } else {
      StampIff(name[..19], ms);
      StampHasNoMark(name[..19]);
      MarkIsFound(name, 19);
      var rest := name[21..];
      assert rest[|rest| - 1] == name[|name| - 1] && rest[..|rest| - 1] == name[21..|name| - 1];
    }
  }
}
