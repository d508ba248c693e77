/** Decimal digits: what they denote and how numbers are written with them. A number is
    written without leading zeros, or padded to a width; both read back, and how many
    digits a number takes is told by the powers of ten. Every text here that holds a
    number, a folder name, a timestamp or a beside-name, is built from these. */
module Numerals {

  predicate IsDigit(c: char) {
    '0' <= c <= '9'
  }

  predicate AllDigits(s: string) {
    forall i | 0 <= i < |s| :: IsDigit(s[i])
  }

  function DigitOf(n: nat): (c: char)
    requires n < 10
    ensures IsDigit(c)
  {
    ('0' as int + n) as char
  }

  function DigitValue(c: char): (n: nat)
    requires IsDigit(c)
    ensures n < 10
  {
    c as int - '0' as int
  }

  /** The number a run of digits denotes. */
  function NatValue(s: string): nat
    requires AllDigits(s)
  {
    if s == "" then 0 else NatValue(s[..|s| - 1]) * 10 + DigitValue(s[|s| - 1])
  }

  predicate NoLeadingZero(s: string) {
    s == "0" || (s != "" && '1' <= s[0] <= '9' && AllDigits(s))
  }

  function Decimal(n: nat): (s: string)
    ensures NoLeadingZero(s)
    ensures n < 10 ==> |s| == 1
  {
    if n < 10 then [DigitOf(n)] else Decimal(n / 10) + [DigitOf(n % 10)]
  }

  function IntText(n: int): string {
    if n < 0 then "-" + Decimal(-n) else Decimal(n)
  }

  function Zeros(n: nat): (s: string)
    ensures |s| == n && AllDigits(s)
  {
    seq(n, _ => '0')
  }

  /** At least `width` characters, filled with zeros after any sign. */
  function Padded(n: int, width: nat): string {
    var s := Decimal(if n < 0 then -n else n);
    var used := |s| + if n < 0 then 1 else 0;
    (if n < 0 then "-" else "") + (if used < width then Zeros(width - used) else "") + s
  }

  lemma {:induction false} DecimalReadsBack(n: nat)
    ensures AllDigits(Decimal(n)) && NatValue(Decimal(n)) == n
  {
    if n < 10 {
      assert Decimal(n)[..0] == "";
    } else {
      DecimalReadsBack(n / 10);
      assert Decimal(n)[..|Decimal(n)| - 1] == Decimal(n / 10);
    }
  }

  lemma {:induction false} LeadingZerosAddNothing(n: nat, s: string)
    requires AllDigits(s)
    ensures AllDigits(Zeros(n) + s) && NatValue(Zeros(n) + s) == NatValue(s)
    decreases n + |s|
  {
    var all := Zeros(n) + s;
    if s != "" {
      LeadingZerosAddNothing(n, s[..|s| - 1]);
      assert all[..|all| - 1] == Zeros(n) + s[..|s| - 1];
    } else if n > 0 {
      LeadingZerosAddNothing(n - 1, "");
      assert all[..|all| - 1] == Zeros(n - 1) + "";
      assert NatValue("") == 0;
    }
  }

  function Power10(k: nat): (p: nat)
    ensures p >= 1
  {
    if k == 0 then 1 else 10 * Power10(k - 1)
  }

  lemma Powers()
    ensures Power10(2) == 100 && Power10(4) == 10_000 && Power10(7) == 10_000_000
  {
    assert Power10(1) == 10 * Power10(0);
    assert Power10(2) == 10 * Power10(1);
    assert Power10(3) == 10 * Power10(2);
    assert Power10(4) == 10 * Power10(3);
    assert Power10(5) == 10 * Power10(4);
    assert Power10(6) == 10 * Power10(5);
    assert Power10(7) == 10 * Power10(6);
  }

  /** A number below 10 to the `k` has at most `k` digits. */
  lemma {:induction false} DecimalLength(n: nat, k: nat)
    requires k >= 1
    ensures |Decimal(n)| <= k <==> n < Power10(k)
  {
    assert Power10(1) == 10 * Power10(0);
    if k == 1 {
      if n >= 10 {
        assert |Decimal(n / 10)| >= 1;
      }
    } else if n >= 10 {
      DecimalLength(n / 10, k - 1);
      assert n < Power10(k) <==> n / 10 < Power10(k - 1);
    } else {
      assert Power10(k) >= 10;
    }
  }

  /** A number that fits its width is exactly that wide and reads back. */
  lemma PaddedReadsBack(n: nat, width: nat)
    requires width >= 1 && n < Power10(width)
    ensures |Padded(n, width)| == width && AllDigits(Padded(n, width)) && NatValue(Padded(n, width)) == n
  {
    DecimalReadsBack(n);
    DecimalLength(n, width);
    var s := Decimal(n);
    LeadingZerosAddNothing(width - |s|, s);
    assert Padded(n, width) == Zeros(width - |s|) + s;
  }
}
