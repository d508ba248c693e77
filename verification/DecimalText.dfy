/** Numbers as the journal stores them: rounded to six decimals, halves away from
    zero, with no more digits than needed. The digits and the exponent are given;
    every text is judged by the number of millionths it stands for, and a number
    has one text only. */
module DecimalText {
  import opened Wrappers
  import opened Numerals
  import opened Division

  const DECIMALS := 6

  type Digit = d: nat | d < 10

  /** The number a run of digits denotes, the first the highest. */
  function ValueOf(digits: seq<Digit>): nat {
    if digits == [] then 0 else ValueOf(digits[..|digits| - 1]) * 10 + digits[|digits| - 1]
  }

  function Glyphs(digits: seq<Digit>): (s: string)
    ensures |s| == |digits| && AllDigits(s)
  {
    seq(|digits|, i requires 0 <= i < |digits| => DigitOf(digits[i]))
  }

  lemma {:induction false} GlyphsDenote(digits: seq<Digit>)
    ensures NatValue(Glyphs(digits)) == ValueOf(digits)
  {
    if digits != [] {
      var front := digits[..|digits| - 1];
      GlyphsDenote(front);
      assert Glyphs(digits)[..|digits| - 1] == Glyphs(front);
    }
  }

  // ---- Rounding -------------------------------------------------------------------

  /** `n / p` to the nearest whole number, a half going up. */
  function Nearest(n: nat, p: nat): nat
    requires p > 0
  {
    (2 * n + p) / (2 * p)
  }

  /** The value in millionths of `digits` with the first at ten to the `exponent`,
      rounded. */
  function Micros(digits: seq<Digit>, exponent: int): nat
    requires digits != []
  {
    var shift := exponent + 1 + DECIMALS - |digits|;
    if shift >= 0 then ValueOf(digits) * Power10(shift) else Nearest(ValueOf(digits), Power10(-shift))
  }

  lemma {:induction false} ValueSplits(digits: seq<Digit>, k: nat)
    requires k <= |digits|
    ensures ValueOf(digits) == ValueOf(digits[..k]) * Power10(|digits| - k) + ValueOf(digits[k..])
    decreases |digits| - k
  {
    if k == |digits| {
      assert digits[..k] == digits && digits[k..] == [];
    } else {
      var front, last := digits[..|digits| - 1], digits[|digits| - 1];
      ValueSplits(front, k);
      assert front[..k] == digits[..k] && front[k..] == digits[k..][..|digits| - k - 1];
      var p := Power10(|digits| - k - 1);
      assert Power10(|digits| - k) == 10 * p;
      assert (ValueOf(digits[..k]) * p) * 10 == ValueOf(digits[..k]) * (10 * p);
    }
  }

  lemma {:induction false} ValueBound(digits: seq<Digit>)
    ensures ValueOf(digits) < Power10(|digits|)
  {
    if digits != [] {
      var front := digits[..|digits| - 1];
      ValueBound(front);
    }
  }

  /** Whether the digits cut off are at least a half is told by their first. */
  lemma FirstTellsHalf(digits: seq<Digit>)
    requires digits != []
    ensures 2 * ValueOf(digits) >= Power10(|digits|) <==> digits[0] >= 5
  {
    ValueSplits(digits, 1);
    assert digits[..1][..0] == [];
    assert ValueOf(digits[..1]) == ValueOf([]) * 10 + digits[0] == digits[0];
    ValueBound(digits[1..]);
    var p := Power10(|digits| - 1);
    assert Power10(|digits|) == 10 * p;
    if digits[0] >= 5 {
      ProductGrows(5, digits[0], p);
    } else {
      ProductGrows(digits[0], 4, p);
    }
  }

  lemma NearestIs(n: nat, whole: nat, part: nat, p: nat)
    requires p > 0 && part < p && n == whole * p + part
    ensures Nearest(n, p) == whole + if 2 * part >= p then 1 else 0
  {
    var up := if 2 * part >= p then 1 else 0;
    var rest := 2 * part + p - 2 * p * up;
    assert 2 * n + p == (whole + up) * (2 * p) + rest by {
      assert 2 * (whole * p) == whole * (2 * p);
      assert (whole + up) * (2 * p) == whole * (2 * p) + up * (2 * p);
    }
    assert 0 <= rest < 2 * p;
    QuotientIs(2 * n + p, 2 * p, whole + up, rest);
  }

  /** Cutting off digits and adding one when the first of them is at least 5 is
      rounding, a half going up. */
  lemma CutRounds(digits: seq<Digit>, keep: nat)
    requires keep < |digits|
    ensures Nearest(ValueOf(digits), Power10(|digits| - keep))
      == ValueOf(digits[..keep]) + if digits[keep] >= 5 then 1 else 0
  {
    var cut := digits[keep..];
    ValueSplits(digits, keep);
    ValueBound(cut);
    FirstTellsHalf(cut);
    NearestIs(ValueOf(digits), ValueOf(digits[..keep]), ValueOf(cut), Power10(|digits| - keep));
  }

  /** Digits that start below the first place cut off round to nothing. */
  lemma BelowRoundsAway(digits: seq<Digit>, places: nat)
    requires places > |digits|
    ensures Nearest(ValueOf(digits), Power10(places)) == 0
  {
    ValueBound(digits);
    PowersGrow(|digits|, places - 1);
    var p := Power10(places - 1);
    assert Power10(places) == 10 * p;
    NearestIs(ValueOf(digits), 0, ValueOf(digits), Power10(places));
  }

  lemma {:induction false} PowersGrow(a: nat, b: nat)
    requires a <= b
    ensures Power10(a) <= Power10(b)
    decreases b - a
  {
    if a < b {
      PowersGrow(a, b - 1);
    }
  }

  /** One added to the last digit, nines carried; and whether the carry ran out of
      digits. */
  method AddOne(digits: seq<Digit>) returns (r: seq<Digit>, carry: bool)
    requires digits != []
    ensures |r| == |digits|
    ensures ValueOf(r) + (if carry then Power10(|digits|) else 0) == ValueOf(digits) + 1
    ensures carry ==> ValueOf(r) == 0
    ensures !carry && digits[0] != 0 ==> r[0] != 0
  {
    r := digits;
    carry := true;
    var i := |digits|;
    while i > 0
      invariant 0 <= i <= |digits| && |r| == |digits|
      invariant r[..i] == digits[..i] && (forall k | i <= k < |r| :: digits[k] == 9 && r[k] == 0)
    {
      i := i - 1;
      if r[i] != 9 {
        Incremented(digits, r, i);
        return r[i := r[i] + 1], false;
      }
      r := r[i := 0];
    }
    AllNines(digits);
    AllZeros(r);
  }

  lemma {:induction false} AllZeros(digits: seq<Digit>)
    requires forall k | 0 <= k < |digits| :: digits[k] == 0
    ensures ValueOf(digits) == 0
  {
    if digits != [] {
      AllZeros(digits[..|digits| - 1]);
    }
  }

  lemma {:induction false} AllNines(digits: seq<Digit>)
    requires forall k | 0 <= k < |digits| :: digits[k] == 9
    ensures ValueOf(digits) + 1 == Power10(|digits|)
  {
    if digits != [] {
      AllNines(digits[..|digits| - 1]);
    }
  }

  /** A digit below 9 raised, and the nines after it cleared, adds one. */
  lemma Incremented(digits: seq<Digit>, r: seq<Digit>, i: nat)
    requires i < |digits| == |r| && r[..i + 1] == digits[..i + 1] && r[i] != 9
    requires forall k | i < k < |r| :: digits[k] == 9 && r[k] == 0
    ensures ValueOf(r[i := r[i] + 1]) == ValueOf(digits) + 1
  {
    var next := r[i := r[i] + 1];
    ValueSplits(digits, i + 1);
    ValueSplits(next, i + 1);
    AllNines(digits[i + 1..]);
    AllZeros(next[i + 1..]);
    PrefixRaised(digits[..i + 1], next[..i + 1]);
    NinesCarry(ValueOf(digits[..i + 1]), Power10(|r| - i - 1));
  }

  lemma NinesCarry(a: nat, p: nat)
    requires p > 0
    ensures (a + 1) * p == a * p + (p - 1) + 1
  {
  }

  lemma PrefixRaised(a: seq<Digit>, b: seq<Digit>)
    requires a != [] && |a| == |b| && a[..|a| - 1] == b[..|a| - 1]
    requires (var last: int := a[|a| - 1]; b[|a| - 1] == last + 1)
    ensures ValueOf(b) == ValueOf(a) + 1
  {
  }

  // ---- The rounded digits ------------------------------------------------------------

  predicate AllZero(digits: seq<Digit>) {
    forall d | d in digits :: d == 0
  }

  /** As a number is printed before rounding: no zero in front but for zero. */
  predicate Leads(digits: seq<Digit>) {
    digits != [] && (digits[0] != 0 || AllZero(digits))
  }

  lemma ZeroMicros(digits: seq<Digit>, exponent: int)
    requires digits != [] && AllZero(digits)
    ensures Micros(digits, exponent) == 0
  {
    assert forall k | 0 <= k < |digits| :: digits[k] in digits;
    AllZeros(digits);
    var p := Power10(if exponent + 1 + DECIMALS - |digits| < 0 then |digits| - exponent - 1 - DECIMALS else 0);
    NearestIs(0, 0, 0, p);
  }

  lemma SmallRounds(digits: seq<Digit>, exponent: int)
    requires digits != [] && exponent + 1 + DECIMALS <= 0
    ensures Micros(digits, exponent) == if exponent + 1 + DECIMALS == 0 && digits[0] >= 5 then 1 else 0
  {
    if exponent + 1 + DECIMALS == 0 {
      CutRounds(digits, 0);
      assert digits[..0] == [];
    } else {
      BelowRoundsAway(digits, |digits| - exponent - 1 - DECIMALS);
    }
  }

  lemma {:induction false} OneInFront(digits: seq<Digit>)
    ensures ValueOf([1] + digits) == Power10(|digits|) + ValueOf(digits)
  {
    if digits == [] {
      OneValue();
      assert [1] + digits == [1];
    } else {
      var front := digits[..|digits| - 1];
      OneInFront(front);
      assert ([1] + digits)[..|digits|] == [1] + front;
    }
  }

  lemma OneValue()
    ensures ValueOf([1]) == 1 && ValueOf([0]) == 0
  {
    var one: seq<Digit>, zero: seq<Digit> := [1], [0];
    assert one[..0] == [] && zero[..0] == [];
  }

  /** What digits and an exponent stand for, in millionths, when none reach past
      the sixth decimal. */
  predicate Stands(r: seq<Digit>, e: int, micros: nat) {
    && 1 <= |r| <= e + 1 + DECIMALS
    && ValueOf(r) * Power10(e + 1 + DECIMALS - |r|) == micros
  }

  /** Digits cut after the sixth decimal, rounded. */
  method RoundDigits(digits: seq<Digit>, exponent: int) returns (r: seq<Digit>, e: int)
    requires Leads(digits)
    requires 0 < exponent + 1 + DECIMALS
    ensures Stands(r, e, Micros(digits, exponent))
    ensures r[0] != 0 || (AllZero(r) && AllZero(digits) && e == exponent)
  {
    r, e := digits, exponent;
    var keep := exponent + 1 + DECIMALS;
    if keep >= |digits| {
      return;
    }
    CutRounds(digits, keep);
    var roundUp := digits[keep] >= 5;
    r := digits[..keep];
    assert digits[keep] in digits && digits[0] == r[0];
    assert forall d | d in r :: d in digits;
    assert Power10(0) == 1;
    if roundUp {
      var carry: bool;
      r, carry := AddOne(r);
      if carry {
        OneInFront(r);
        r := [1] + r;
        e := e + 1;
      }
    }
  }

  method Rounded(digits: seq<Digit>, exponent: int) returns (r: seq<Digit>, e: int)
    requires Leads(digits)
    ensures Stands(r, e, Micros(digits, exponent))
    ensures r[0] != 0 || (AllZero(r) && e == 0)
  {
    var start := exponent;
    if forall d | d in digits :: d == 0 {
      start := 0;
      ZeroMicros(digits, exponent);
      ZeroMicros(digits, 0);
    }
    var keep := start + 1 + DECIMALS;
    if keep <= 0 {
      var roundUp := keep == 0 && digits[0] >= 5;
      SmallRounds(digits, start);
      OneValue();
      assert Power10(0) == 1;
      if roundUp {
        r, e := [1], -6;
      } else {
        r, e := [0], 0;
      }
      return;
    }
    r, e := RoundDigits(digits, start);
  }

  // ---- Laying out the text -----------------------------------------------------------

  /** A whole part and a fraction stand for so many millionths. */
  predicate Denotes(integer: string, fraction: string, micros: nat) {
    && AllDigits(integer) && AllDigits(fraction) && |fraction| <= DECIMALS
    && NatValue(integer) * Power10(DECIMALS) + NatValue(fraction) * Power10(DECIMALS - |fraction|) == micros
  }

  /** No digit more than needed. */
  predicate Tidy(integer: string, fraction: string) {
    && integer != "" && (integer == "0" || integer[0] != '0')
    && (fraction == "" || fraction[|fraction| - 1] != '0')
  }

  lemma {:induction false} PowersMultiply(a: nat, b: nat)
    ensures Power10(a + b) == Power10(a) * Power10(b)
  {
    if a > 0 {
      PowersMultiply(a - 1, b);
      assert 10 * (Power10(a - 1) * Power10(b)) == (10 * Power10(a - 1)) * Power10(b);
    }
  }

  lemma {:induction false} ZerosAfter(s: string, n: nat)
    requires AllDigits(s)
    ensures NatValue(s + Zeros(n)) == NatValue(s) * Power10(n)
  {
    if n == 0 {
      assert s + Zeros(0) == s;
    } else {
      ZerosAfter(s, n - 1);
      var all := s + Zeros(n);
      assert all[..|all| - 1] == s + Zeros(n - 1);
      assert NatValue(s) * Power10(n - 1) * 10 == NatValue(s) * (10 * Power10(n - 1));
    }
  }

  /** Digits below the point, behind the zeros that bring them there. */
  lemma BelowOne(r: seq<Digit>, e: int, micros: nat)
    requires Stands(r, e, micros) && e < 0
    ensures Denotes("0", Zeros(-e - 1) + Glyphs(r), micros)
  {
    GlyphsDenote(r);
    LeadingZerosAddNothing(-e - 1, Glyphs(r));
    assert "0"[..0] == "";
    assert NatValue("0") == 0;
  }

  lemma AllWhole(r: seq<Digit>, e: int, micros: nat)
    requires Stands(r, e, micros) && e >= 0 && |r| <= e + 1
    ensures Denotes(Glyphs(r) + Zeros(e + 1 - |r|), "", micros)
  {
    GlyphsDenote(r);
    ZerosAfter(Glyphs(r), e + 1 - |r|);
    PowersMultiply(e + 1 - |r|, DECIMALS);
    var v, a, b := ValueOf(r), Power10(e + 1 - |r|), Power10(DECIMALS);
    assert v * (a * b) == (v * a) * b;
    assert NatValue("") == 0;
  }

  lemma Straddles(r: seq<Digit>, e: int, micros: nat)
    requires Stands(r, e, micros) && e >= 0 && |r| > e + 1
    ensures Denotes(Glyphs(r[..e + 1]), Glyphs(r[e + 1..]), micros)
  {
    var whole, part := r[..e + 1], r[e + 1..];
    GlyphsDenote(whole);
    GlyphsDenote(part);
    ValueSplits(r, e + 1);
    PowersMultiply(|part|, DECIMALS - |part|);
    Spread(ValueOf(whole), ValueOf(part), Power10(|part|), Power10(DECIMALS - |part|));
  }

  lemma Spread(w: nat, f: nat, a: nat, b: nat)
    ensures (w * a + f) * b == w * (a * b) + f * b
  {
    assert (w * a + f) * b == (w * a) * b + f * b;
    assert (w * a) * b == w * (a * b);
  }

  /** The text before and after the point. */
  method LayOut(r: seq<Digit>, e: int, ghost micros: nat) returns (integer: string, fraction: string)
    requires Stands(r, e, micros)
    ensures Denotes(integer, fraction, micros)
    ensures integer != "" && (integer == "0" || (integer[0] == DigitOf(r[0]) && |integer| == e + 1))
  {
    if e < 0 {
      BelowOne(r, e, micros);
      return "0", Zeros(-e - 1) + Glyphs(r);
    }
    integer := "";
    for i := 0 to e + 1
      invariant |integer| == i
      invariant forall k | 0 <= k < i :: integer[k] == if k < |r| then DigitOf(r[k]) else '0'
    {
      integer := integer + [if i < |r| then DigitOf(r[i]) else '0'];
    }
    if |r| > e + 1 {
      fraction := Glyphs(r[e + 1..]);
      Straddles(r, e, micros);
      assert integer == Glyphs(r[..e + 1]);
    } else {
      fraction := "";
      AllWhole(r, e, micros);
      assert integer == Glyphs(r) + Zeros(e + 1 - |r|);
    }
  }

  /** A fraction without the zeros at its end. */
  method TrimZeros(integer: string, fraction: string, ghost micros: nat) returns (r: string)
    requires Denotes(integer, fraction, micros)
    ensures Denotes(integer, r, micros) && (r == "" || r[|r| - 1] != '0')
  {
    r := fraction;
    while r != "" && r[|r| - 1] == '0'
      invariant Denotes(integer, r, micros)
      decreases |r|
    {
      OneZeroLess(integer, r, micros);
      r := r[..|r| - 1];
    }
  }

  lemma OneZeroLess(integer: string, fraction: string, micros: nat)
    requires Denotes(integer, fraction, micros) && fraction != "" && fraction[|fraction| - 1] == '0'
    ensures Denotes(integer, fraction[..|fraction| - 1], micros)
  {
    var front := fraction[..|fraction| - 1];
    var p := Power10(DECIMALS - |fraction|);
    assert Power10(DECIMALS - |front|) == 10 * p;
    TenTimes(NatValue(front), p);
  }

  lemma TenTimes(n: nat, p: nat)
    ensures (n * 10) * p == n * (10 * p)
  {
  }

  function Joined(negative: bool, integer: string, fraction: string): string {
    (if negative then "-" else "") + integer + (if fraction == "" then "" else "." + fraction)
  }

  /** The text is a sign, a whole part and a fraction that stand for so many
      millionths, with no digit more than needed. */
  ghost predicate Shows(text: string, negative: bool, micros: nat) {
    exists integer, fraction ::
      text == Joined(negative, integer, fraction) && Denotes(integer, fraction, micros) && Tidy(integer, fraction)
  }

  /** From any digits and exponent: the text is exactly their number rounded to
      six decimals, halves away from zero, with no digit more than needed. */
  method FormatUpToSixDecimals(negative: bool, digits: seq<Digit>, exponent: int) returns (text: string)
    requires Leads(digits)
    ensures Shows(text, negative, Micros(digits, exponent))
  {
    var r, e := Rounded(digits, exponent);
    var whole, part := LayOut(r, e, Micros(digits, exponent));
    assert r[0] == 0 && |whole| == 1 ==> whole == "0";
    var trimmed := TrimZeros(whole, part, Micros(digits, exponent));
    text := if negative then "-" else "";
    text := text + whole;
    if trimmed != "" {
      text := text + "." + trimmed;
    }
    assert text == Joined(negative, whole, trimmed);
  }

  // ---- One text for a number ----------------------------------------------------------

  lemma {:induction false} SameLengthSameDigits(a: string, b: string)
    requires AllDigits(a) && AllDigits(b) && |a| == |b| && NatValue(a) == NatValue(b)
    ensures a == b
  {
    if a != "" {
      var n := |a| - 1;
      LastDigit(a);
      LastDigit(b);
      SameLengthSameDigits(a[..n], b[..n]);
      assert a == a[..n] + [a[n]] && b == b[..n] + [b[n]];
    }
  }

  lemma LastDigit(s: string)
    requires AllDigits(s) && s != ""
    ensures NatValue(s) % 10 == DigitValue(s[|s| - 1]) && NatValue(s) / 10 == NatValue(s[..|s| - 1])
  {
  }

  /** Without a leading zero a number has one text. */
  lemma {:induction false} OneWholePart(s: string)
    requires NoLeadingZero(s) && AllDigits(s)
    ensures s == Decimal(NatValue(s))
  {
    LastDigit(s);
    if |s| == 1 {
      assert NatValue("") == 0;
    } else {
      OneWholePart(s[..|s| - 1]);
      WholeIsPositive(s[..|s| - 1]);
      assert s == s[..|s| - 1] + [s[|s| - 1]];
    }
  }

  lemma {:induction false} WholeIsPositive(s: string)
    requires AllDigits(s) && s != "" && s[0] != '0'
    ensures NatValue(s) > 0
  {
    if |s| > 1 {
      WholeIsPositive(s[..|s| - 1]);
    } else {
      assert NatValue(s[..0]) == 0;
    }
  }

  lemma {:induction false} DigitsBelowPower(s: string)
    requires AllDigits(s)
    ensures NatValue(s) < Power10(|s|)
  {
    if s != "" {
      DigitsBelowPower(s[..|s| - 1]);
      assert Power10(|s|) == 10 * Power10(|s| - 1);
    }
  }

  lemma QuotientParts(w: nat, f: nat, limit: nat, p: nat, all: nat, micros: nat)
    requires f < limit && p > 0 && limit * p == all && w * all + f * p == micros
    ensures all > 0 && w == micros / all && f * p == micros % all
  {
    LessTimes(f, limit, p);
    LessTimes(0, limit, p);
    assert w * all == all * w;
    QuotientIs(micros, all, w, f * p);
  }

  lemma PartsOf(integer: string, fraction: string, micros: nat)
    requires Denotes(integer, fraction, micros)
    ensures NatValue(integer) == micros / Power10(DECIMALS)
    ensures NatValue(fraction) * Power10(DECIMALS - |fraction|) == micros % Power10(DECIMALS)
  {
    var rest := DECIMALS - |fraction|;
    DigitsBelowPower(fraction);
    PowersMultiply(|fraction|, rest);
    QuotientParts(NatValue(integer), NatValue(fraction), Power10(|fraction|), Power10(rest), Power10(DECIMALS), micros);
  }

  lemma LessTimes(a: nat, b: nat, p: nat)
    requires a < b && p > 0
    ensures a * p < b * p
  {
    assert (b - a) * p > 0;
  }

  /** The longer fraction is the shorter one's value scaled. */
  lemma ScaledFraction(a: nat, b: nat, more: nat, rest: nat)
    requires a * Power10(more + rest) == b * Power10(rest)
    ensures a * Power10(more) == b
  {
    PowersMultiply(more, rest);
    Regrouped(a, Power10(more), Power10(rest));
    CancelTimes(a * Power10(more), b, Power10(rest));
  }

  lemma Regrouped(a: nat, b: nat, c: nat)
    ensures a * (b * c) == (a * b) * c
  {
  }

  /** Trimmed fractions of the same value are the same text. */
  lemma OneFraction(a: string, b: string)
    requires AllDigits(a) && AllDigits(b) && |a| <= |b| <= DECIMALS
    requires NatValue(a) * Power10(DECIMALS - |a|) == NatValue(b) * Power10(DECIMALS - |b|)
    requires b == "" || b[|b| - 1] != '0'
    ensures a == b
  {
    var more := |b| - |a|;
    ScaledFraction(NatValue(a), NatValue(b), more, DECIMALS - |b|);
    if more > 0 {
      TenfoldEndsInZero(NatValue(a), more);
      LastDigit(b);
    } else {
      assert Power10(0) == 1;
      SameLengthSameDigits(a, b);
    }
  }

  lemma CancelTimes(a: nat, b: nat, p: nat)
    requires p > 0 && a * p == b * p
    ensures a == b
  {
    if a < b {
      LessTimes(a, b, p);
    } else if b < a {
      LessTimes(b, a, p);
    }
  }

  lemma TenfoldEndsInZero(a: nat, k: nat)
    requires k > 0
    ensures a * Power10(k) % 10 == 0
  {
    assert Power10(k) == 10 * Power10(k - 1);
    Regrouped(10, a, Power10(k - 1));
    assert a * Power10(k) == 10 * (a * Power10(k - 1));
  }

  /** A number of millionths and a sign have one text: nothing else could have
      been printed. */
  lemma ShownOnce(a: string, b: string, negative: bool, micros: nat)
    requires Shows(a, negative, micros) && Shows(b, negative, micros)
    ensures a == b
  {
    var i, f :| a == Joined(negative, i, f) && Denotes(i, f, micros) && Tidy(i, f);
    var j, g :| b == Joined(negative, j, g) && Denotes(j, g, micros) && Tidy(j, g);
    PartsOf(i, f, micros);
    PartsOf(j, g, micros);
    assert NoLeadingZero(i) && NoLeadingZero(j);
    OneWholePart(i);
    OneWholePart(j);
    if |f| <= |g| {
      OneFraction(f, g);
    } else {
      OneFraction(g, f);
    }
  }
}
