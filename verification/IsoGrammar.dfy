/** Which texts are times, and what each says, over whole strings; the reader accepts
    these and no others. */
module IsoGrammar {
  import opened Wrappers
  import opened Numerals
  import opened Calendar
  import opened IsoTimes

  predicate Spells(s: string, n: int) {
    AllDigits(s) && NatValue(s) == n
  }

  predicate IsDateText(s: string, d: Date) {
    && |s| == 10 && s[4] == '-' && s[7] == '-'
    && Spells(s[..4], d.year) && Spells(s[5..7], d.month) && Spells(s[8..], d.day) && ValidDate(d)
  }

  /** A hundred millionth for each place not written. */
  predicate IsFraction(s: string, nanos: nat) {
    1 <= |s| <= 7 && AllDigits(s) && nanos == NatValue(s) * Power10(9 - |s|)
  }

  /** `THH:mm`, `THH:mm:ss`, or that and a fraction. */
  predicate IsClockText(s: string, c: Clock) {
    && |s| >= 6 && s[0] == 'T' && s[3] == ':' && Spells(s[1..3], c.hour) && Spells(s[4..6], c.minute)
    && c.hour < 24 && c.minute < 60 && c.second < 60
    && if |s| == 6 then c.second == 0 && c.nanos == 0
       else
         && |s| >= 9 && s[6] == ':' && Spells(s[7..9], c.second)
         && if |s| == 9 then c.nanos == 0 else s[9] == '.' && IsFraction(s[10..], c.nanos)
  }

  /** Nothing, `Z`, or an offset of at most 14 hours and 59 minutes either way. */
  predicate IsZoneText(s: string, offset: Option<int>) {
    || (s == "" && offset == None)
    || (s == "Z" && offset == Some(0))
    || (|s| == 6 && s[0] in {'+', '-'} && s[3] == ':' && AllDigits(s[1..3]) && AllDigits(s[4..])
        && NatValue(s[1..3]) <= 14 && NatValue(s[4..]) < 60
        && var minutes: int := NatValue(s[1..3]) * 60 + NatValue(s[4..]);
           offset == Some(if s[0] == '-' then -minutes else minutes))
  }

  /** A date alone, or with a time of day up to `at` and a zone after it. */
  predicate IsIsoTextAt(text: string, at: nat, d: Date, c: Clock, offset: Option<int>) {
    && 10 < at <= |text| && IsDateText(text[..10], d) && IsClockText(text[10..at], c) && IsZoneText(text[at..], offset)
  }

  ghost predicate IsIsoText(text: string, d: Date, c: Clock, offset: Option<int>) {
    || (IsDateText(text, d) && c == Clock(0, 0, 0, 0) && offset == None)
    || exists at :: IsIsoTextAt(text, at, d, c, offset)
  }

  /** What the clock shows there, in nanoseconds, is the instant and the offset together. */
  predicate IsInstant(t: ParsedTime, d: Date, c: Clock, offset: Option<int>) {
    var minutes := if offset.Some? then offset.value else 0;
    && t.offsetMinutes == offset
    && t.instant + minutes * 60_000_000_000
       == (((DaysFromCivil(d.year, d.month, d.day) * 24 + c.hour) * 60 + c.minute) * 60 + c.second) * 1_000_000_000 + c.nanos
  }

  // ---- What is read is such a text --------------------------------------------------

  lemma InstantIs(d: Date, c: Clock, offset: Option<int>, t: ParsedTime)
    ensures t == Instant(d, c, offset) <==> IsInstant(t, d, c, offset)
  {
  }

  lemma DateIff(text: string, d: Date)
    requires |text| >= 10
    ensures ReadDate(text) == Some(d) <==> IsDateText(text[..10], d)
  {
    var s := text[..10];
    assert s[..4] == text[0..4] && s[5..7] == text[5..7] && s[8..] == text[8..10];
    assert AllDigits(text[0..4]) ==> NatValue(text[0..4]) >= 0;
  }

  lemma {:induction false} DigitsEndAt(text: string, at: nat, end: nat)
    requires at <= end <= |text| && AllDigits(text[at..end]) && (end < |text| ==> !IsDigit(text[end]))
    ensures DigitsEnd(text, at) == end
    decreases end - at
  {
    if at < end {
      assert text[at..end][0] == text[at] && text[at..end][1..] == text[at + 1..end];
      DigitsEndAt(text, at + 1, end);
    }
  }

  lemma ZoneIff(text: string, at: nat, offset: Option<int>)
    requires at <= |text|
    ensures ReadOffset(text, at) == Some(offset) <==> IsZoneText(text[at..], offset)
  {
    var s := text[at..];
    if |s| == 6 {
      assert s[1..3] == text[at + 1..at + 3] && s[4..] == text[at + 4..at + 6];
    }
  }

  lemma Within(text: string, at: nat, end: nat, i: nat, j: nat)
    requires at <= end <= |text| && i <= j <= end - at
    ensures text[at..end][i..j] == text[at + i..at + j]
  {
    var a, b := text[at..end][i..j], text[at + i..at + j];
    assert |a| == |b|;
    forall k | 0 <= k < |a| ensures a[k] == b[k] {
    }
  }

  lemma Rest(text: string, at: nat, end: nat, i: nat)
    requires at <= end <= |text| && i <= end - at
    ensures text[at..end][i..] == text[at + i..end]
  {
  }

  lemma LastOf(text: string, at: nat)
    requires at <= |text|
    ensures at < |text| ==> text[at..][|text| - at - 1] == text[|text| - 1]
    ensures at > 10 ==> text[10..at][at - 11] == text[at - 1]
  {
  }

  /** The parts of a clock the reader takes. */
  lemma ClockRead(text: string, at: nat)
    requires ReadClock(text, at).Some?
    ensures var (c, end) := ReadClock(text, at).value; at + 6 <= end <= |text| && IsClockText(text[at..end], c)
  {
    var (c, end) := ReadClock(text, at).value;
    var s := text[at..end];
    SecondEnds(text, at + 6);
    assert s[0] == text[at] && s[3] == text[at + 3];
    Within(text, at, end, 1, 3);
    Within(text, at, end, 4, 6);
    if end > at + 6 {
      Within(text, at, end, 7, 9);
      assert s[6] == text[at + 6];
      if end > at + 9 {
        assert s[9] == text[at + 9];
        Rest(text, at, end, 10);
      }
    }
  }

  /** Where the seconds end, and what they are then. */
  lemma SecondEnds(text: string, at: nat)
    requires at <= |text| && ReadSecond(text, at).Some?
    ensures
      var (second, nanos, end) := ReadSecond(text, at).value;
      && at <= end <= |text|
      && if end == at then second == 0 && nanos == 0
         else
           && end >= at + 3 && text[at] == ':' && NumberAt(text, at + 1, 2) == Some(second)
           && if end == at + 3 then nanos == 0
              else end >= at + 5 && text[at + 3] == '.' && IsFraction(text[at + 4..end], nanos)
  {
  }

  /** Nothing of a zone carries on a clock before it. */
  predicate EndsClock(text: string, end: nat) {
    end <= |text| && (end < |text| ==> text[end] in {'Z', '+', '-'})
  }

  lemma ClockReads(text: string, at: nat, end: nat, c: Clock)
    requires at <= end <= |text| && IsClockText(text[at..end], c) && EndsClock(text, end)
    ensures ReadClock(text, at) == Some((c, end))
  {
    var s := text[at..end];
    Within(text, at, end, 1, 3);
    Within(text, at, end, 4, 6);
    assert s[0] == text[at] && s[3] == text[at + 3];
    SecondReads(text, at, end, c);
  }

  lemma SecondReads(text: string, at: nat, end: nat, c: Clock)
    requires at <= end <= |text| && IsClockText(text[at..end], c) && EndsClock(text, end)
    ensures ReadSecond(text, at + 6) == Some((c.second, c.nanos, end))
  {
    var s := text[at..end];
    if |s| > 6 {
      Within(text, at, end, 7, 9);
      if |s| > 9 {
        Rest(text, at, end, 10);
        DigitsEndAt(text, at + 10, end);
      }
    }
  }

  lemma ZoneEndsClock(text: string, at: nat, offset: Option<int>)
    requires at <= |text| && IsZoneText(text[at..], offset)
    ensures EndsClock(text, at)
  {
    assert at < |text| ==> text[at..][0] == text[at];
  }

  lemma LongReads(text: string, at: nat, d: Date, c: Clock, offset: Option<int>)
    requires IsIsoTextAt(text, at, d, c, offset)
    ensures ParseIso(text) == Some(Instant(d, c, offset))
  {
    DateIff(text, d);
    ZoneEndsClock(text, at, offset);
    ClockReads(text, 10, at, c);
    ZoneIff(text, at, offset);
  }

  lemma TextReads(text: string, d: Date, c: Clock, offset: Option<int>)
    requires IsIsoText(text, d, c, offset)
    ensures ParseIso(text) == Some(Instant(d, c, offset))
  {
    if at :| IsIsoTextAt(text, at, d, c, offset) {
      LongReads(text, at, d, c, offset);
    } else {
      assert text[..10] == text;
      DateIff(text, d);
    }
  }

  lemma ReadIsText(text: string) returns (d: Date, c: Clock, offset: Option<int>)
    requires ParseIso(text).Some?
    ensures IsIsoText(text, d, c, offset) && ParseIso(text) == Some(Instant(d, c, offset))
  {
    d := ReadDate(text).value;
    DateIff(text, d);
    c, offset := Clock(0, 0, 0, 0), None;
    if |text| == 10 {
      assert text[..10] == text;
    } else {
      var end := ReadClock(text, 10).value.1;
      c, offset := ReadClock(text, 10).value.0, ReadOffset(text, end).value;
      ClockRead(text, 10);
      ZoneIff(text, end, offset);
      assert IsIsoTextAt(text, end, d, c, offset);
    }
  }

  /** A text is read as a time exactly when it is the text of a date, with a time of day
      and a zone or without, that name that instant and that offset. */
  lemma ReadsExactlyTimes(text: string, t: ParsedTime)
    ensures ParseIso(text) == Some(t) <==> exists d, c, offset :: IsIsoText(text, d, c, offset) && IsInstant(t, d, c, offset)
  {
    if ParseIso(text) == Some(t) {
      var d, c, offset := ReadIsText(text);
      InstantIs(d, c, offset, t);
    }
    if d, c, offset :| IsIsoText(text, d, c, offset) && IsInstant(t, d, c, offset) {
      TextReads(text, d, c, offset);
      InstantIs(d, c, offset, t);
    }
  }

  lemma DateEndsInDigit(s: string, d: Date)
    ensures IsDateText(s, d) ==> IsDigit(s[9])
  {
    if IsDateText(s, d) {
      assert s[8..][1] == s[9];
    }
  }

  lemma ClockEndsInDigit(s: string, c: Clock)
    ensures IsClockText(s, c) ==> IsDigit(s[|s| - 1])
  {
    if IsClockText(s, c) {
      if |s| == 6 {
        assert s[4..6][1] == s[5];
      } else if |s| == 9 {
        assert s[7..9][1] == s[8];
      } else {
        assert s[10..][|s| - 11] == s[|s| - 1];
      }
    }
  }

  lemma OffsetEndsInDigit(s: string, offset: Option<int>)
    ensures IsZoneText(s, offset) && |s| == 6 ==> IsDigit(s[5])
  {
    if IsZoneText(s, offset) && |s| == 6 {
      assert s[4..][1] == s[5];
    }
  }

  /** A `Z` at the end is the zone. */
  lemma ZoneIsLast(text: string, at: nat, d: Date, c: Clock, offset: Option<int>)
    requires IsIsoTextAt(text, at, d, c, offset) && text[|text| - 1] == 'Z'
    ensures at == |text| - 1 && offset == Some(0)
  {
    ClockEndsInDigit(text[10..at], c);
    OffsetEndsInDigit(text[at..], offset);
    LastOf(text, at);
  }

  /** `other` is `utc` with another zone in place of the `Z`. */
  predicate OnlyZonesDiffer(utc: string, other: string, zone: string) {
    && utc != "" && utc[|utc| - 1] == 'Z' && |other| == |utc| - 1 + |zone|
    && utc[..|utc| - 1] == other[..|utc| - 1] && other[|utc| - 1..] == zone
  }

  lemma OtherIsText(utc: string, other: string, zone: string, d: Date, c: Clock, offset: Option<int>, named: Option<int>)
    requires OnlyZonesDiffer(utc, other, zone) && IsZoneText(zone, named) && IsIsoTextAt(utc, |utc| - 1, d, c, offset)
    ensures IsIsoTextAt(other, |utc| - 1, d, c, named)
  {
    var n := |utc| - 1;
    assert utc[..10] == utc[..n][..10] && other[..10] == other[..n][..10];
    assert utc[10..n] == utc[..n][10..] && other[10..n] == other[..n][10..];
  }

  /** The parts of a text that ends with `Z`. */
  lemma UtcRead(utc: string) returns (d: Date, c: Clock)
    requires ParseIso(utc).Some? && utc != "" && utc[|utc| - 1] == 'Z'
    ensures IsIsoTextAt(utc, |utc| - 1, d, c, Some(0)) && ParseIso(utc) == Some(Instant(d, c, Some(0)))
  {
    var offset;
    d, c, offset := ReadIsText(utc);
    DateEndsInDigit(utc, d);
    var at :| IsIsoTextAt(utc, at, d, c, offset);
    ZoneIsLast(utc, at, d, c, offset);
  }

  /** The parts of the other text, which has the zone instead. */
  lemma OtherRead(utc: string, other: string, zone: string, minutes: int, t: ParsedTime) returns (d: Date, c: Clock)
    requires ParseIso(utc) == Some(t) && OnlyZonesDiffer(utc, other, zone) && IsZoneText(zone, Some(minutes))
    ensures IsIsoTextAt(other, |utc| - 1, d, c, Some(minutes)) && IsInstant(t, d, c, Some(0))
  {
    d, c := UtcRead(utc);
    OtherIsText(utc, other, zone, d, c, Some(0), Some(minutes));
    InstantIs(d, c, Some(0), t);
  }

  /** The same date and clock with an offset is the instant they are with `Z`, earlier by
      the offset. */
  lemma OffsetShifts(utc: string, other: string, zone: string, minutes: int, t: ParsedTime)
    requires ParseIso(utc) == Some(t) && OnlyZonesDiffer(utc, other, zone) && IsZoneText(zone, Some(minutes))
    ensures ParseIso(other) == Some(ParsedTime(t.instant - minutes * 60_000_000_000, Some(minutes)))
  {
    var d, c := OtherRead(utc, other, zone, minutes, t);
    Shifted(other, |utc| - 1, d, c, minutes, t);
  }

  lemma Shifted(other: string, at: nat, d: Date, c: Clock, minutes: int, t: ParsedTime)
    requires IsIsoTextAt(other, at, d, c, Some(minutes)) && IsInstant(t, d, c, Some(0))
    ensures ParseIso(other) == Some(ParsedTime(t.instant - minutes * 60_000_000_000, Some(minutes)))
  {
    LongReads(other, at, d, c, Some(minutes));
    InstantIs(d, c, Some(minutes), ParsedTime(t.instant - minutes * 60_000_000_000, Some(minutes)));
  }
}
