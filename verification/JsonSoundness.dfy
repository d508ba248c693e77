/** What the strict reader lets through: every tree it gives has numbers of the
    grammar, names that differ within an object, and no more levels than allowed. Of
    each step of the number scanner it is shown that what it takes is a text of its
    grammar and that what it leaves is the rest, so that nothing is skipped. */
module JsonSoundness {
  import opened Wrappers
  import opened Numerals
  import opened JsonValues
  import opened JsonReading

  /** What was read of `s` when `rest` is left. */
  function Read(s: string, rest: string): string
    requires |rest| <= |s|
  {
    s[..|s| - |rest|]
  }

  // ---- Numbers -------------------------------------------------------------------

  lemma {:induction false} DropDigitsReads(s: string)
    ensures s == Read(s, DropDigits(s)) + DropDigits(s)
    ensures AllDigits(Read(s, DropDigits(s)))
    ensures !StartsWithDigit(DropDigits(s))
  {
    if StartsWithDigit(s) {
      DropDigitsReads(s[1..]);
      assert Read(s, DropDigits(s)) == [s[0]] + Read(s[1..], DropDigits(s[1..]));
    }
  }

  lemma DigitThenDigits(c: char, run: string, rest: string)
    requires '1' <= c <= '9' && AllDigits(run)
    ensures Read([c] + (run + rest), rest) == [c] + run && IsInt([c] + run)
    ensures [c] + (run + rest) == [c] + run + rest
  {
  }

  lemma AfterZeroReads(s: string)
    requires s != "" && s[0] == '0'
    ensures Read(s, s[1..]) == "0" && s == "0" + s[1..] && IsInt("0")
  {
  }

  lemma AfterRunReads(s: string)
    requires s != "" && '1' <= s[0] <= '9'
    ensures var r := DropDigits(s[1..]); s == Read(s, r) + r && IsInt(Read(s, r))
  {
    var r := DropDigits(s[1..]);
    var run := Read(s[1..], r);
    DropDigitsReads(s[1..]);
    DigitThenDigits(s[0], run, r);
    assert s == [s[0]] + s[1..];
  }

  lemma AfterIntReads(s: string)
    requires AfterInt(s).Some?
    ensures var r := AfterInt(s).value; s == Read(s, r) + r && IsInt(Read(s, r))
  {
    if s[0] == '0' {
      AfterZeroReads(s);
    } else {
      AfterRunReads(s);
    }
  }

  lemma AfterFractionReads(s: string)
    requires AfterFraction(s).Some?
    ensures var r := AfterFraction(s).value; s == Read(s, r) + r && IsFraction(Read(s, r))
  {
    if StartsWith(s, '.') {
      var r := AfterFraction(s).value;
      DropDigitsReads(s[1..]);
      assert Read(s, r) == [s[0]] + Read(s[1..], r);
      assert |r| < |s[1..]|;
    }
  }

  lemma AfterExponentReads(s: string)
    requires AfterExponent(s).Some?
    ensures var r := AfterExponent(s).value; s == Read(s, r) + r && IsExponent(Read(s, r))
  {
    if StartsWith(s, 'e') || StartsWith(s, 'E') {
      var r, digits := AfterExponent(s).value, AfterSign(s[1..]);
      DropDigitsReads(digits);
      assert |r| < |digits|;
      if digits == s[1..] {
        assert Read(s, r) == [s[0]] + Read(digits, r);
      } else {
        assert Read(s, r) == [s[0], s[1]] + Read(digits, r);
        assert Read(s, r)[2..] == Read(digits, r);
      }
    }
  }

  lemma Joined(minus: string, whole: string, fraction: string, exponent: string, a: string, b: string, c: string)
    requires a == fraction + b && b == exponent + c
    ensures minus + (whole + a) == (minus + whole + fraction + exponent) + c
  {
  }

  lemma ReadIsPrefix(s: string, raw: string, rest: string)
    requires s == raw + rest
    ensures Read(s, rest) == raw
  {
  }

  /** The text up to where a number ends, as the grammar's parts. */
  lemma NumberPartsOf(s: string, whole: string, a: string, b: string, c: string) returns (parts: NumberParts)
    requires whole == AfterMinus(s) && AfterInt(whole) == Some(a)
    requires AfterFraction(a) == Some(b) && AfterExponent(b) == Some(c)
    ensures parts.Valid() && s == parts.Written() + c
  {
    AfterIntReads(whole);
    AfterFractionReads(a);
    AfterExponentReads(b);
    parts := NumberParts(StartsWith(s, '-'), Read(whole, a), Read(a, b), Read(b, c));
    var minus := if parts.minus then "-" else "";
    assert s == minus + whole;
    Joined(minus, parts.whole, parts.fraction, parts.exponent, a, b, c);
  }

  lemma ParsedNumberIsSound(s: string)
    requires ParseNumber(s).Got?
    ensures IsNumber(ParseNumber(s).value)
    ensures s == ParseNumber(s).value + ParseNumber(s).rest
  {
    var whole := AfterMinus(s);
    var a := AfterInt(whole).value;
    var b := AfterFraction(a).value;
    var c := AfterExponent(b).value;
    var parts := NumberPartsOf(s, whole, a, b, c);
    var raw := parts.Written();
    assert IsNumber(raw);
    ReadIsPrefix(s, raw, c);
  }

  // ---- Trees -------------------------------------------------------------------------

  lemma {:induction false} ParsedValueIsSound(s: string, depth: nat)
    requires ParseValue(s, depth).Got?
    ensures Sound(ParseValue(s, depth).value)
    ensures depth <= MAX_DEPTH ==> depth + Depth(ParseValue(s, depth).value) <= MAX_DEPTH
    decreases |s|, 1
  {
    if s[0] == '{' {
      var t := SkipWhitespace(s[1..]);
      if !StartsWith(t, '}') {
        ParsedMembersAreSound(t, depth + 1, []);
      }
    } else if s[0] == '[' {
      var t := SkipWhitespace(s[1..]);
      if !StartsWith(t, ']') {
        ParsedItemsAreSound(t, depth + 1, []);
      }
    } else if StartsNumber(s[0]) {
      ParsedNumberIsSound(s);
    }
  }

  lemma {:induction false} ParsedItemsAreSound(s: string, depth: nat, items: seq<Value>)
    requires 1 <= depth <= MAX_DEPTH && ParseItems(s, depth, items).Got?
    requires forall i | 0 <= i < |items| :: Sound(items[i]) && depth + Depth(items[i]) <= MAX_DEPTH
    ensures Sound(ParseItems(s, depth, items).value)
    ensures depth - 1 + Depth(ParseItems(s, depth, items).value) <= MAX_DEPTH
    decreases |s|, 2
  {
    ParsedValueIsSound(s, depth);
    var item, t := ParseValue(s, depth).value, SkipWhitespace(ParseValue(s, depth).rest);
    var all := items + [item];
    if StartsWith(t, ',') {
      ParsedItemsAreSound(SkipWhitespace(t[1..]), depth, all);
    } else {
      ItemsDepthBound(all, MAX_DEPTH - depth);
    }
  }

  lemma {:induction false} ParsedMembersAreSound(s: string, depth: nat, members: seq<Member>)
    requires 1 <= depth <= MAX_DEPTH && ParseMembers(s, depth, members).Got?
    requires forall i | 0 <= i < |members| ::
      Sound(members[i].value) && depth + Depth(members[i].value) <= MAX_DEPTH
    requires DistinctNames(members)
    ensures Sound(ParseMembers(s, depth, members).value)
    ensures depth - 1 + Depth(ParseMembers(s, depth, members).value) <= MAX_DEPTH
    decreases |s|, 3
  {
    var read := ParseMember(s, depth, members);
    var name := ParseChars(s[1..], "");
    ParsedValueIsSound(SkipWhitespace(SkipWhitespace(name.rest)[1..]), depth);
    var all, t := members + [read.value], SkipWhitespace(read.rest);
    assert DistinctNames(all);
    if StartsWith(t, ',') {
      ParsedMembersAreSound(SkipWhitespace(t[1..]), depth, all);
    } else {
      MembersDepthBound(all, MAX_DEPTH - depth);
    }
  }

  /** An accepted document is nested at most 64 levels deep, names no member
      twice in an object, and writes its numbers as the grammar wants. */
  lemma AcceptedIsAcceptable(doc: string)
    requires Parse(doc).Ok?
    ensures Acceptable(Parse(doc).value)
  {
    var s := SkipWhitespace(if StartsWith(doc, BYTE_ORDER_MARK) then doc[1..] else doc);
    ParsedValueIsSound(s, 0);
  }
}
