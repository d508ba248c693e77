/** Reading what was written gives back the same tree, whatever the starting
    indent; and only the trees the reader could have produced do. */
module JsonRoundTrip {
  import opened Wrappers
  import opened Numerals
  import opened JsonValues
  import opened JsonReading
  import opened JsonWriting
  import opened JsonSoundness

  // ---- Numbers ---------------------------------------------------------------------

  /** Text that cannot carry on a number written before it. */
  predicate EndsNumber(post: string) {
    post == "" || !(IsDigit(post[0]) || post[0] in ".eE")
  }

  lemma {:induction false} DropAllDigits(digits: string, post: string)
    requires AllDigits(digits) && !StartsWithDigit(post)
    ensures DropDigits(digits + post) == post
  {
    if digits == "" {
      assert digits + post == post;
    } else {
      assert (digits + post)[1..] == digits[1..] + post;
      DropAllDigits(digits[1..], post);
    }
  }

  lemma AfterWrittenInt(whole: string, post: string)
    requires IsInt(whole) && !StartsWithDigit(post)
    ensures AfterInt(whole + post) == Some(post)
  {
    assert (whole + post)[1..] == whole[1..] + post;
    if whole == "0" {
      assert whole[1..] + post == post;
    } else {
      DropAllDigits(whole[1..], post);
    }
  }

  lemma AfterWrittenFraction(fraction: string, post: string)
    requires IsFraction(fraction) && !StartsWithDigit(post) && !StartsWith(post, '.')
    ensures AfterFraction(fraction + post) == Some(post)
  {
    if fraction == "" {
      assert fraction + post == post;
    } else {
      assert (fraction + post)[1..] == fraction[1..] + post;
      DropAllDigits(fraction[1..], post);
    }
  }

  lemma AfterWrittenExponent(exponent: string, post: string)
    requires IsExponent(exponent) && EndsNumber(post)
    ensures AfterExponent(exponent + post) == Some(post)
  {
    if exponent == "" {
      assert exponent + post == post;
    } else {
      assert (exponent + post)[1..] == exponent[1..] + post;
      if exponent[1] in "+-" {
        assert (exponent[1..] + post)[1..] == exponent[2..] + post;
        DropAllDigits(exponent[2..], post);
      } else {
        DropAllDigits(exponent[1..], post);
      }
    }
  }

  lemma WrittenNumberEnds(parts: NumberParts, post: string)
    requires parts.Valid() && EndsNumber(post)
    ensures AfterNumber(parts.Written() + post) == Some(post)
  {
    var b := parts.exponent + post;
    var a := parts.fraction + b;
    var minus := if parts.minus then "-" else "";
    Joined(minus, parts.whole, parts.fraction, parts.exponent, a, b, post);
    var s := parts.Written() + post;
    assert s == minus + (parts.whole + a);
    assert AfterMinus(s) == parts.whole + a;
    AfterWrittenInt(parts.whole, a);
    AfterWrittenFraction(parts.fraction, b);
    AfterWrittenExponent(parts.exponent, post);
  }

  lemma WrittenNumberReadsBack(raw: string, post: string)
    requires IsNumber(raw) && EndsNumber(post)
    ensures raw != "" && StartsNumber(raw[0])
    ensures ParseNumber(raw + post) == Got(raw, post)
  {
    var parts: NumberParts :| parts.Valid() && parts.Written() == raw;
    WrittenNumberEnds(parts, post);
    ReadIsPrefix(raw + post, raw, post);
  }

  // ---- Strings ------------------------------------------------------------------------

  lemma HexDigitReadsBack(n: nat)
    requires n < 16
    ensures HexValue(HexDigit(n)) == Some(n)
  {
  }

  lemma HexSplits(unit: nat)
    requires unit < 0x10000
    ensures ((unit / 0x1000 * 16 + unit / 0x100 % 16) * 16 + unit / 16 % 16) * 16 + unit % 16 == unit
  {
    assert unit / 0x100 == unit / 0x1000 * 16 + unit / 0x100 % 16;
    assert unit / 16 == unit / 0x100 * 16 + unit / 16 % 16;
  }

  lemma UnitReadsBack(unit: nat, post: string)
    requires unit < 0x10000
    ensures ParseHex4(UnitText(unit)[2..] + post) == Got(unit, post)
  {
    var s := UnitText(unit)[2..] + post;
    HexDigitReadsBack(unit / 0x1000);
    HexDigitReadsBack(unit / 0x100 % 16);
    HexDigitReadsBack(unit / 16 % 16);
    HexDigitReadsBack(unit % 16);
    HexSplits(unit);
    assert s[..4] == UnitText(unit)[2..] && s[4..] == post;
    assert s[0] == UnitText(unit)[2] && s[1] == UnitText(unit)[3];
    assert s[2] == UnitText(unit)[4] && s[3] == UnitText(unit)[5];
  }

  /** A backslash and what its escape stands for. */
  lemma EscapeReadsBack(escape: string, c: char, post: string, out: string)
    requires ParseEscape(escape) == Got(c, post)
    ensures ParseChars("\\" + escape, out) == ParseChars(post, out + [c])
  {
    assert ("\\" + escape)[1..] == escape;
  }

  lemma PlainUnitReadsBack(unit: nat, post: string, out: string)
    requires unit < 0xD800 || 0xE000 <= unit < 0x10000
    ensures ParseChars(UnitText(unit) + post, out) == ParseChars(post, out + [unit as char])
  {
    var escape := UnitText(unit)[1..] + post;
    assert UnitText(unit) + post == "\\" + escape;
    assert escape[1..] == UnitText(unit)[2..] + post;
    UnitReadsBack(unit, post);
    EscapeReadsBack(escape, unit as char, post, out);
  }

  lemma UnitsReadBack(high: nat, low: nat, post: string)
    requires 0xD800 <= high <= 0xDBFF && 0xDC00 <= low <= 0xDFFF
    ensures ParseUnicode(UnitText(high)[2..] + (UnitText(low) + post))
      == Got((0x10000 + (high - 0xD800) * 0x400 + (low - 0xDC00)) as char, post)
  {
    var second := UnitText(low) + post;
    UnitReadsBack(high, second);
    assert second[2..] == UnitText(low)[2..] + post;
    UnitReadsBack(low, post);
  }

  lemma PairReadsBack(c: char, post: string, out: string)
    requires c as int >= 0x10000
    ensures ParseChars(CharText(c) + post, out) == ParseChars(post, out + [c])
  {
    var v := c as int - 0x10000;
    var high, low := 0xD800 + v / 0x400, 0xDC00 + v % 0x400;
    var escape := UnitText(high)[1..] + (UnitText(low) + post);
    assert CharText(c) + post == "\\" + escape;
    assert escape[1..] == UnitText(high)[2..] + (UnitText(low) + post);
    UnitsReadBack(high, low, post);
    EscapeReadsBack(escape, c, post, out);
  }

  lemma CharReadsBack(c: char, post: string, out: string)
    ensures ParseChars(CharText(c) + post, out) == ParseChars(post, out + [c])
  {
    if c as int >= 0x10000 {
      PairReadsBack(c, post, out);
    } else if CharText(c) == UnitText(c as int) {
      PlainUnitReadsBack(c as int, post, out);
    } else if CharText(c) == [c] {
      assert ([c] + post)[1..] == post;
    } else {
      var escape := [CharText(c)[1]] + post;
      assert CharText(c) + post == "\\" + escape;
      assert escape[1..] == post;
      EscapeReadsBack(escape, c, post, out);
    }
  }

  lemma {:induction false} CharsReadBack(text: string, post: string, out: string)
    ensures ParseChars(CharsText(text) + ("\"" + post), out) == Got(out + text, post)
  {
    var tail := "\"" + post;
    if text == "" {
      assert CharsText(text) + tail == tail;
      assert out + text == out;
    } else {
      assert CharsText(text) + tail == CharText(text[0]) + (CharsText(text[1..]) + tail);
      CharReadsBack(text[0], CharsText(text[1..]) + tail, out);
      CharsReadBack(text[1..], post, out + [text[0]]);
      assert out + [text[0]] + text[1..] == out + text;
    }
  }

  lemma StringReadsBack(text: string, post: string)
    ensures StartsWith(StringText(text) + post, '"')
    ensures ParseChars((StringText(text) + post)[1..], "") == Got(text, post)
  {
    assert (StringText(text) + post)[1..] == CharsText(text) + ("\"" + post);
    CharsReadBack(text, post, "");
    assert "" + text == text;
  }

  // ---- Whitespace -------------------------------------------------------------------------

  predicate StartsToken(s: string) {
    s != "" && !IsWhitespace(s[0])
  }

  lemma {:induction false} SkipPad(level: nat, s: string)
    requires StartsToken(s)
    ensures SkipWhitespace(Pad(level) + s) == s
  {
    if level == 0 {
      assert Pad(0) + s == s;
    } else {
      assert Pad(level) + s == [' '] + ([' '] + (Pad(level - 1) + s));
      assert ([' '] + ([' '] + (Pad(level - 1) + s)))[1..] == [' '] + (Pad(level - 1) + s);
      assert ([' '] + (Pad(level - 1) + s))[1..] == Pad(level - 1) + s;
      SkipPad(level - 1, s);
    }
  }

  lemma SkipLineAndPad(level: nat, s: string)
    requires StartsToken(s)
    ensures SkipWhitespace("\n" + (Pad(level) + s)) == s
  {
    assert ("\n" + (Pad(level) + s))[1..] == Pad(level) + s;
    SkipPad(level, s);
  }

  lemma ValueTextStartsToken(v: Value, indent: nat, post: string)
    requires Sound(v)
    ensures StartsToken(ValueText(v, indent) + post)
  {
    if v.Number? {
      WrittenNumberReadsBack(v.raw, "");
    }
  }

  // ---- Trees ----------------------------------------------------------------------------------

  lemma {:induction false} ValueReadsBack(v: Value, indent: nat, depth: nat, post: string)
    requires Sound(v) && EndsNumber(post) && depth <= MAX_DEPTH
    ensures ParseValue(ValueText(v, indent) + post, depth)
      == if depth + Depth(v) <= MAX_DEPTH then Got(v, post) else Fail(TooDeep)
    decreases v, 2
  {
    match v
    case Number(raw) => WrittenNumberReadsBack(raw, post);
    case Text(text) => StringReadsBack(text, post);
    case Array(items) => ArrayReadsBack(items, indent, depth, post);
    case Object(members) => ObjectReadsBack(members, indent, depth, post);
    case _ => WordReadsBack(v, indent, depth, post);
  }

  lemma {:induction false} ArrayReadsBack(items: seq<Value>, indent: nat, depth: nat, post: string)
    requires Sound(Array(items)) && depth <= MAX_DEPTH
    ensures ParseValue(ValueText(Array(items), indent) + post, depth)
      == if depth + Depth(Array(items)) <= MAX_DEPTH then Got(Array(items), post) else Fail(TooDeep)
    decreases items, 2
  {
    if items == [] {
      EmptyReadsBack(indent, depth, post);
    } else {
      FirstItemIsNotClose(items, indent, post);
      ArrayOpens(items, indent, depth, post);
      OpenStep("\n" + ItemsTail(items, 0, indent, post), depth);
      if depth < MAX_DEPTH {
        ItemsReadBack(items, 0, indent, depth + 1, post);
        assert items[..0] == [] && items[0..] == items;
      }
    }
  }

  lemma {:induction false} ObjectReadsBack(members: seq<Member>, indent: nat, depth: nat, post: string)
    requires Sound(Object(members)) && depth <= MAX_DEPTH
    ensures ParseValue(ValueText(Object(members), indent) + post, depth)
      == if depth + Depth(Object(members)) <= MAX_DEPTH then Got(Object(members), post) else Fail(TooDeep)
    decreases members, 2
  {
    if members == [] {
      EmptyReadsBack(indent, depth, post);
    } else {
      FirstMemberIsNotClose(members, indent, post);
      ObjectOpens(members, indent, depth, post);
      OpenStep("\n" + MembersTail(members, 0, indent, post), depth);
      if depth < MAX_DEPTH {
        MembersReadBack(members, 0, indent, depth + 1, post);
        assert members[..0] == [] && members[0..] == members;
      }
    }
  }

  lemma WordReadsBack(v: Value, indent: nat, depth: nat, post: string)
    requires v.Null? || v.Bool?
    ensures ParseValue(ValueText(v, indent) + post, depth) == Got(v, post)
  {
    var word := ValueText(v, indent);
    assert word <= word + post && (word + post)[|word|..] == post;
  }

  lemma EmptyReadsBack(indent: nat, depth: nat, post: string)
    ensures ParseValue(ValueText(Array([]), indent) + post, depth)
      == if depth + 1 > MAX_DEPTH then Fail(TooDeep) else Got(Array([]), post)
    ensures ParseValue(ValueText(Object([]), indent) + post, depth)
      == if depth + 1 > MAX_DEPTH then Fail(TooDeep) else Got(Object([]), post)
  {
    assert ("[]" + post)[1..] == "]" + post && ("]" + post)[1..] == post;
    assert ("{}" + post)[1..] == "}" + post && ("}" + post)[1..] == post;
  }

  lemma OpenStep(rest: string, depth: nat)
    ensures !StartsWith(SkipWhitespace(rest), ']') ==>
      ParseValue("[" + rest, depth)
        == if depth + 1 > MAX_DEPTH then Fail(TooDeep) else ParseItems(SkipWhitespace(rest), depth + 1, [])
    ensures !StartsWith(SkipWhitespace(rest), '}') ==>
      ParseValue("{" + rest, depth)
        == if depth + 1 > MAX_DEPTH then Fail(TooDeep) else ParseMembers(SkipWhitespace(rest), depth + 1, [])
  {
    assert ("[" + rest)[1..] == rest && ("{" + rest)[1..] == rest;
  }

  /** After its opening bracket an array is read item by item. */
  lemma ArrayOpens(items: seq<Value>, indent: nat, depth: nat, post: string)
    requires items != []
    ensures ValueText(Array(items), indent) + post == "[" + ("\n" + ItemsTail(items, 0, indent, post))
  {
  }

  lemma ObjectOpens(members: seq<Member>, indent: nat, depth: nat, post: string)
    requires members != []
    ensures ValueText(Object(members), indent) + post == "{" + ("\n" + MembersTail(members, 0, indent, post))
  {
  }

  /** The lines of an array from item `i` on, with its closing bracket. */
  function ItemsTail(items: seq<Value>, i: nat, indent: nat, post: string): string
    requires i <= |items|
  {
    ItemsText(items, i, indent) + (Pad(indent) + ("]" + post))
  }

  lemma ItemsTailSplits(items: seq<Value>, i: nat, indent: nat, post: string)
    requires i < |items|
    ensures ItemsTail(items, i, indent, post)
      == Pad(indent + 1) + (ValueText(items[i], indent + 1)
         + (Separator(i + 1 < |items|) + ItemsTail(items, i + 1, indent, post)))
  {
  }

  /** What stands after item `i`: a comma and the next line, or the close. */
  function AfterItem(items: seq<Value>, i: nat, indent: nat, post: string): string
    requires i < |items|
  {
    Separator(i + 1 < |items|) + ItemsTail(items, i + 1, indent, post)
  }

  /** The line of item `i`, its indent skipped, and all that follows. */
  function ItemLine(items: seq<Value>, i: nat, indent: nat, post: string): string
    requires i < |items|
  {
    ValueText(items[i], indent + 1) + AfterItem(items, i, indent, post)
  }

  lemma ItemLineStarts(items: seq<Value>, i: nat, indent: nat, post: string)
    requires i < |items| && Sound(items[i])
    ensures SkipWhitespace("\n" + ItemsTail(items, i, indent, post)) == ItemLine(items, i, indent, post)
  {
    ItemsTailSplits(items, i, indent, post);
    ValueTextStartsToken(items[i], indent + 1, AfterItem(items, i, indent, post));
    SkipLineAndPad(indent + 1, ItemLine(items, i, indent, post));
  }

  lemma FirstItemIsNotClose(items: seq<Value>, indent: nat, post: string)
    requires items != [] && Sound(items[0])
    ensures !StartsWith(SkipWhitespace("\n" + ItemsTail(items, 0, indent, post)), ']')
  {
    ItemLineStarts(items, 0, indent, post);
    ValueTextIsNotClose(items[0], indent + 1, AfterItem(items, 0, indent, post));
  }

  lemma LastItemIsClosed(items: seq<Value>, indent: nat, post: string)
    requires items != []
    ensures AfterItem(items, |items| - 1, indent, post) == "\n" + (Pad(indent) + ("]" + post))
  {
    assert ItemsText(items, |items|, indent) == "";
  }

  lemma CommaAndLine(tail: string)
    ensures Separator(true) + tail == [','] + ("\n" + tail)
    ensures var t := Separator(true) + tail; SkipWhitespace(t) == t && t[1..] == "\n" + tail
  {
    assert Separator(true) + tail == [','] + ("\n" + tail);
  }

  lemma AfterItemReads(items: seq<Value>, i: nat, indent: nat, post: string)
    requires i < |items|
    ensures
      var t := SkipWhitespace(AfterItem(items, i, indent, post));
      if i + 1 == |items| then t == "]" + post
      else StartsWith(t, ',') && t[1..] == "\n" + ItemsTail(items, i + 1, indent, post)
  {
    if i + 1 == |items| {
      LastItemIsClosed(items, indent, post);
      SkipLineAndPad(indent, "]" + post);
    } else {
      CommaAndLine(ItemsTail(items, i + 1, indent, post));
    }
  }

  /** One turn of the reader's loop over items. */
  lemma ItemsStep(s: string, depth: nat, items: seq<Value>, item: Value, next: string)
    requires ParseValue(s, depth) == Got(item, next)
    ensures
      var t := SkipWhitespace(next);
      ParseItems(s, depth, items)
        == if StartsWith(t, ',') then ParseItems(SkipWhitespace(t[1..]), depth, items + [item])
           else if StartsWith(t, ']') then Got(Array(items + [item]), t[1..])
           else Fail(Syntax)
  {
  }

  /** The last item, then the closing bracket. */
  lemma LastItemReads(items: seq<Value>, indent: nat, depth: nat, post: string)
    requires items != []
    requires
      var i := |items| - 1;
      ParseValue(ItemLine(items, i, indent, post), depth) == Got(items[i], AfterItem(items, i, indent, post))
    ensures ParseItems(ItemLine(items, |items| - 1, indent, post), depth, items[..|items| - 1]) == Got(Array(items), post)
  {
    var i := |items| - 1;
    ItemsStep(ItemLine(items, i, indent, post), depth, items[..i], items[i], AfterItem(items, i, indent, post));
    AfterItemReads(items, i, indent, post);
    assert items[..i] + [items[i]] == items;
    assert ("]" + post)[1..] == post;
  }

  /** An item that is not the last, then a comma and the next line. */
  lemma NextItemReads(items: seq<Value>, i: nat, indent: nat, depth: nat, post: string)
    requires i + 1 < |items|
    requires ParseValue(ItemLine(items, i, indent, post), depth) == Got(items[i], AfterItem(items, i, indent, post))
    ensures ParseItems(ItemLine(items, i, indent, post), depth, items[..i])
      == ParseItems(SkipWhitespace("\n" + ItemsTail(items, i + 1, indent, post)), depth, items[..i + 1])
  {
    ItemsStep(ItemLine(items, i, indent, post), depth, items[..i], items[i], AfterItem(items, i, indent, post));
    AfterItemReads(items, i, indent, post);
    assert items[..i] + [items[i]] == items[..i + 1];
  }

  lemma ItemsFail(s: string, depth: nat, items: seq<Value>)
    requires ParseValue(s, depth).Fail?
    ensures ParseItems(s, depth, items) == Fail(ParseValue(s, depth).error)
  {
  }

  lemma ItemsDepthFrom(items: seq<Value>, i: nat)
    requires i < |items|
    ensures ItemsDepth(items[i..]) == Max(Depth(items[i]), ItemsDepth(items[i + 1..]))
    ensures i + 1 == |items| ==> ItemsDepth(items[i..]) == Depth(items[i])
  {
    assert items[i..] == [items[i]] + items[i + 1..];
  }

  lemma {:induction false} ItemLineReads(items: seq<Value>, i: nat, indent: nat, depth: nat, post: string)
    requires i < |items| && 1 <= depth <= MAX_DEPTH
    requires Sound(Array(items))
    ensures ParseValue(ItemLine(items, i, indent, post), depth)
      == if depth + Depth(items[i]) <= MAX_DEPTH then Got(items[i], AfterItem(items, i, indent, post)) else Fail(TooDeep)
    decreases items, 1, |items| - i, 0
  {
    ValueReadsBack(items[i], indent + 1, depth, AfterItem(items, i, indent, post));
  }

  lemma {:induction false} ItemsReadBack(items: seq<Value>, i: nat, indent: nat, depth: nat, post: string)
    requires i < |items| && 1 <= depth <= MAX_DEPTH
    requires Sound(Array(items))
    ensures ParseItems(SkipWhitespace("\n" + ItemsTail(items, i, indent, post)), depth, items[..i])
      == if depth + ItemsDepth(items[i..]) <= MAX_DEPTH then Got(Array(items), post) else Fail(TooDeep)
    decreases items, 1, |items| - i, 1
  {
    ItemLineStarts(items, i, indent, post);
    ItemLineReads(items, i, indent, depth, post);
    ItemsDepthFrom(items, i);
    if depth + Depth(items[i]) > MAX_DEPTH {
      ItemsFail(ItemLine(items, i, indent, post), depth, items[..i]);
    } else if i + 1 == |items| {
      LastItemReads(items, indent, depth, post);
    } else {
      NextItemReads(items, i, indent, depth, post);
      ItemsReadBack(items, i + 1, indent, depth, post);
    }
  }

  lemma ValueTextIsNotClose(v: Value, indent: nat, post: string)
    requires Sound(v)
    ensures !StartsWith(ValueText(v, indent) + post, ']') && !StartsWith(ValueText(v, indent) + post, '}')
  {
    if v.Number? {
      WrittenNumberReadsBack(v.raw, "");
    }
  }

  function MembersTail(members: seq<Member>, i: nat, indent: nat, post: string): string
    requires i <= |members|
  {
    MembersText(members, i, indent) + (Pad(indent) + ("}" + post))
  }

  lemma MembersTailSplits(members: seq<Member>, i: nat, indent: nat, post: string)
    requires i < |members|
    ensures MembersTail(members, i, indent, post)
      == Pad(indent + 1) + (StringText(members[i].name) + (": " + (ValueText(members[i].value, indent + 1)
         + (Separator(i + 1 < |members|) + MembersTail(members, i + 1, indent, post)))))
  {
  }

  lemma {:induction false} MemberReadsBack(members: seq<Member>, i: nat, indent: nat, depth: nat, next: string)
    requires i < |members| && 1 <= depth <= MAX_DEPTH
    requires DistinctNames(members) && Sound(members[i].value) && EndsNumber(next)
    ensures ParseMember(StringText(members[i].name) + (": " + (ValueText(members[i].value, indent) + next)), depth, members[..i])
      == if depth + Depth(members[i].value) <= MAX_DEPTH then Got(members[i], next) else Fail(TooDeep)
    decreases members, 0
  {
    var value := ValueText(members[i].value, indent) + next;
    var rest := ": " + value;
    StringReadsBack(members[i].name, rest);
    assert !HasName(members[..i], members[i].name);
    assert SkipWhitespace(rest) == rest;
    assert rest[1..] == " " + value;
    assert (" " + value)[1..] == value;
    ValueTextStartsToken(members[i].value, indent, next);
    assert SkipWhitespace(rest[1..]) == value;
    ValueReadsBack(members[i].value, indent, depth, next);
  }

  function AfterMember(members: seq<Member>, i: nat, indent: nat, post: string): string
    requires i < |members|
  {
    Separator(i + 1 < |members|) + MembersTail(members, i + 1, indent, post)
  }

  function MemberLine(members: seq<Member>, i: nat, indent: nat, post: string): string
    requires i < |members|
  {
    StringText(members[i].name)
    + (": " + (ValueText(members[i].value, indent + 1) + AfterMember(members, i, indent, post)))
  }

  lemma MemberLineStarts(members: seq<Member>, i: nat, indent: nat, post: string)
    requires i < |members|
    ensures SkipWhitespace("\n" + MembersTail(members, i, indent, post)) == MemberLine(members, i, indent, post)
  {
    MembersTailSplits(members, i, indent, post);
    SkipLineAndPad(indent + 1, MemberLine(members, i, indent, post));
  }

  lemma FirstMemberIsNotClose(members: seq<Member>, indent: nat, post: string)
    requires members != []
    ensures !StartsWith(SkipWhitespace("\n" + MembersTail(members, 0, indent, post)), '}')
  {
    MemberLineStarts(members, 0, indent, post);
  }

  lemma LastMemberIsClosed(members: seq<Member>, indent: nat, post: string)
    requires members != []
    ensures AfterMember(members, |members| - 1, indent, post) == "\n" + (Pad(indent) + ("}" + post))
  {
    assert MembersText(members, |members|, indent) == "";
  }

  lemma AfterMemberReads(members: seq<Member>, i: nat, indent: nat, post: string)
    requires i < |members|
    ensures
      var t := SkipWhitespace(AfterMember(members, i, indent, post));
      if i + 1 == |members| then t == "}" + post
      else StartsWith(t, ',') && t[1..] == "\n" + MembersTail(members, i + 1, indent, post)
  {
    if i + 1 == |members| {
      LastMemberIsClosed(members, indent, post);
      SkipLineAndPad(indent, "}" + post);
    } else {
      CommaAndLine(MembersTail(members, i + 1, indent, post));
    }
  }

  lemma MembersStep(s: string, depth: nat, members: seq<Member>, member: Member, next: string)
    requires ParseMember(s, depth, members) == Got(member, next)
    ensures
      var t := SkipWhitespace(next);
      ParseMembers(s, depth, members)
        == if StartsWith(t, ',') then ParseMembers(SkipWhitespace(t[1..]), depth, members + [member])
           else if StartsWith(t, '}') then Got(Object(members + [member]), t[1..])
           else Fail(Syntax)
  {
  }

  lemma MembersFail(s: string, depth: nat, members: seq<Member>)
    requires ParseMember(s, depth, members).Fail?
    ensures ParseMembers(s, depth, members) == Fail(ParseMember(s, depth, members).error)
  {
  }

  lemma {:induction false} MemberLineReads(members: seq<Member>, i: nat, indent: nat, depth: nat, post: string)
    requires i < |members| && 1 <= depth <= MAX_DEPTH
    requires Sound(Object(members))
    ensures ParseMember(MemberLine(members, i, indent, post), depth, members[..i])
      == if depth + Depth(members[i].value) <= MAX_DEPTH
         then Got(members[i], AfterMember(members, i, indent, post)) else Fail(TooDeep)
    decreases members, 1, |members| - i, 0
  {
    MemberReadsBack(members, i, indent + 1, depth, AfterMember(members, i, indent, post));
  }

  lemma LastMemberReads(members: seq<Member>, indent: nat, depth: nat, post: string)
    requires members != []
    requires
      var i := |members| - 1;
      ParseMember(MemberLine(members, i, indent, post), depth, members[..i])
        == Got(members[i], AfterMember(members, i, indent, post))
    ensures ParseMembers(MemberLine(members, |members| - 1, indent, post), depth, members[..|members| - 1])
      == Got(Object(members), post)
  {
    var i := |members| - 1;
    MembersStep(MemberLine(members, i, indent, post), depth, members[..i], members[i], AfterMember(members, i, indent, post));
    AfterMemberReads(members, i, indent, post);
    assert members[..i] + [members[i]] == members;
    assert ("}" + post)[1..] == post;
  }

  lemma NextMemberReads(members: seq<Member>, i: nat, indent: nat, depth: nat, post: string)
    requires i + 1 < |members|
    requires ParseMember(MemberLine(members, i, indent, post), depth, members[..i])
      == Got(members[i], AfterMember(members, i, indent, post))
    ensures ParseMembers(MemberLine(members, i, indent, post), depth, members[..i])
      == ParseMembers(SkipWhitespace("\n" + MembersTail(members, i + 1, indent, post)), depth, members[..i + 1])
  {
    MembersStep(MemberLine(members, i, indent, post), depth, members[..i], members[i], AfterMember(members, i, indent, post));
    AfterMemberReads(members, i, indent, post);
    assert members[..i] + [members[i]] == members[..i + 1];
  }

  lemma MembersDepthFrom(members: seq<Member>, i: nat)
    requires i < |members|
    ensures MembersDepth(members[i..]) == Max(Depth(members[i].value), MembersDepth(members[i + 1..]))
    ensures i + 1 == |members| ==> MembersDepth(members[i..]) == Depth(members[i].value)
  {
    assert members[i..] == [members[i]] + members[i + 1..];
  }

  lemma {:induction false} MembersReadBack(members: seq<Member>, i: nat, indent: nat, depth: nat, post: string)
    requires i < |members| && 1 <= depth <= MAX_DEPTH
    requires Sound(Object(members))
    ensures ParseMembers(SkipWhitespace("\n" + MembersTail(members, i, indent, post)), depth, members[..i])
      == if depth + MembersDepth(members[i..]) <= MAX_DEPTH then Got(Object(members), post) else Fail(TooDeep)
    decreases members, 1, |members| - i, 1
  {
    MemberLineStarts(members, i, indent, post);
    MemberLineReads(members, i, indent, depth, post);
    MembersDepthFrom(members, i);
    if depth + Depth(members[i].value) > MAX_DEPTH {
      MembersFail(MemberLine(members, i, indent, post), depth, members[..i]);
    } else if i + 1 == |members| {
      LastMemberReads(members, indent, depth, post);
    } else {
      NextMemberReads(members, i, indent, depth, post);
      MembersReadBack(members, i + 1, indent, depth, post);
    }
  }

  // ---- Documents ---------------------------------------------------------------------------------

  /** For every tree with grammatical numbers and distinct names and every
      starting indent: the document written reads back as that tree, unless it
      is nested too deep, and then that is what the reader says. */
  lemma DocumentReadsBack(v: Value, indent: nat)
    requires Sound(v)
    ensures Parse(ValueText(v, indent)) == if Depth(v) <= MAX_DEPTH then Ok(v) else Err(TooDeep)
  {
    var s := ValueText(v, indent);
    assert s + "" == s;
    ValueTextStartsToken(v, indent, "");
    ValueTextStartsAscii(v, indent);
    ValueReadsBack(v, indent, 0, "");
  }

  lemma ValueTextStartsAscii(v: Value, indent: nat)
    requires Sound(v)
    ensures !StartsWith(ValueText(v, indent), BYTE_ORDER_MARK)
  {
    if v.Number? {
      WrittenNumberReadsBack(v.raw, "");
    }
  }

  /** A tree is written and read back unchanged exactly when it is acceptable. */
  lemma ReadsBackIffAcceptable(v: Value, indent: nat)
    ensures Parse(ValueText(v, indent)) == Ok(v) <==> Acceptable(v)
  {
    if Parse(ValueText(v, indent)) == Ok(v) {
      AcceptedIsAcceptable(ValueText(v, indent));
    } else if Acceptable(v) {
      DocumentReadsBack(v, indent);
    }
  }

  /** Reading any document and writing it again keeps its tree. */
  lemma RewriteKeepsTree(doc: string, indent: nat)
    requires Parse(doc).Ok?
    ensures Parse(ValueText(Parse(doc).value, indent)) == Parse(doc)
  {
    AcceptedIsAcceptable(doc);
    DocumentReadsBack(Parse(doc).value, indent);
  }
}
