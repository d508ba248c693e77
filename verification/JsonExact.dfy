/** The strict reader accepts exactly the texts of the grammar whose trees are
    acceptable, and reads each as the tree it is a text of. */
module JsonExact {
  import opened Wrappers
  import opened Numerals
  import opened JsonValues
  import opened JsonReading
  import opened JsonGrammar
  import opened JsonStrings
  import opened JsonSoundness
  import opened JsonRoundTrip

  // ---- Blanks ------------------------------------------------------------------------

  lemma {:induction false} BlankRead(s: string) returns (blank: string)
    ensures s == blank + SkipWhitespace(s) && Blank(blank)
    ensures SkipWhitespace(s) == "" || !IsWhitespace(SkipWhitespace(s)[0])
    decreases |s|
  {
    if s != "" && IsWhitespace(s[0]) {
      var rest := BlankRead(s[1..]);
      blank := [s[0]] + rest;
    } else {
      blank := "";
    }
  }

  lemma {:induction false} BlankReads(blank: string, s: string)
    requires Blank(blank) && (s == "" || !IsWhitespace(s[0]))
    ensures SkipWhitespace(blank + s) == s
  {
    if blank == "" {
      assert blank + s == s;
    } else {
      assert IsWhitespace(blank[0]) && (blank + s)[1..] == blank[1..] + s;
      BlankReads(blank[1..], s);
    }
  }

  lemma BlankSum(a: string, b: string)
    requires Blank(a) && Blank(b)
    ensures Blank(a + b)
  {
  }

  // ---- What is read is a text ----------------------------------------------------------

  lemma WordRead(s: string, word: string, value: Value)
    requires word != "" && ParseWord(s, word, value).Got?
    ensures s == word + ParseWord(s, word, value).rest
  {
  }

  lemma Enclosed(open: char, inner: string, close: char)
    ensures var t := [open] + (inner + [close]); |t| >= 2 && t[0] == open && t[|t| - 1] == close && t[1..|t| - 1] == inner
  {
  }

  lemma {:induction false} ValueRead(s: string, depth: nat) returns (text: string)
    requires ParseValue(s, depth).Got?
    ensures IsText(text, ParseValue(s, depth).value) && s == text + ParseValue(s, depth).rest
    decreases |s|, 1
  {
    if s[0] == '{' {
      text := ObjectRead(s, depth);
    } else if s[0] == '[' {
      text := ArrayRead(s, depth);
    } else if s[0] == '"' {
      text := StringRead(s);
    } else if s[0] == 't' {
      WordRead(s, "true", Bool(true));
      text := "true";
    } else if s[0] == 'f' {
      WordRead(s, "false", Bool(false));
      text := "false";
    } else if s[0] == 'n' {
      WordRead(s, "null", Null);
      text := "null";
    } else {
      ParsedNumberIsSound(s);
      text := ParseNumber(s).value;
    }
  }

  lemma {:induction false} ArrayRead(s: string, depth: nat) returns (text: string)
    requires s != "" && s[0] == '[' && ParseValue(s, depth).Got?
    ensures IsText(text, ParseValue(s, depth).value) && s == text + ParseValue(s, depth).rest
    decreases |s|, 0
  {
    var blank := BlankRead(s[1..]);
    var t := SkipWhitespace(s[1..]);
    if StartsWith(t, ']') {
      text := "[" + (blank + "]");
      Enclosed('[', blank, ']');
    } else {
      var r := ParseItems(t, depth + 1, []);
      var inner, items := ItemsRead(t, depth + 1, [], r.value, r.rest);
      ItemsAfterBlank(blank, inner, items);
      text := "[" + ((blank + inner) + "]");
      Enclosed('[', blank + inner, ']');
      assert [] + items == items;
      assert s == ['['] + s[1..];
    }
  }

  lemma {:induction false} ObjectRead(s: string, depth: nat) returns (text: string)
    requires s != "" && s[0] == '{' && ParseValue(s, depth).Got?
    ensures IsText(text, ParseValue(s, depth).value) && s == text + ParseValue(s, depth).rest
    decreases |s|, 0
  {
    var blank := BlankRead(s[1..]);
    var t := SkipWhitespace(s[1..]);
    if StartsWith(t, '}') {
      text := "{" + (blank + "}");
      Enclosed('{', blank, '}');
    } else {
      var r := ParseMembers(t, depth + 1, []);
      var inner, members := MembersRead(t, depth + 1, [], r.value, r.rest);
      MembersAfterBlank(blank, inner, members);
      text := "{" + ((blank + inner) + "}");
      Enclosed('{', blank + inner, '}');
      assert [] + members == members;
      assert s == ['{'] + s[1..];
    }
  }

  lemma ItemsAfterBlank(blank: string, s: string, items: seq<Value>)
    requires items != [] && Blank(blank) && IsItems(s, items)
    ensures IsItems(blank + s, items)
  {
    var before, text, after, rest :| ItemsParts(s, items, before, text, after, rest);
    BlankSum(blank, before);
    assert blank + s == (blank + before) + (text + (after + rest));
    assert ItemsParts(blank + s, items, blank + before, text, after, rest);
  }

  lemma LastItem(text: string, after: string, item: Value)
    requires IsText(text, item) && Blank(after)
    ensures IsItems(text + after, [item])
  {
    assert text + after == "" + (text + (after + ""));
    assert ItemsParts(text + after, [item], "", text, after, "");
  }

  lemma NextItem(text: string, after: string, item: Value, s: string, items: seq<Value>)
    requires items != [] && IsText(text, item) && Blank(after) && IsItems(s, items)
    ensures IsItems(text + (after + ("," + s)), [item] + items)
  {
    var rest := "," + s;
    assert rest[1..] == s && ([item] + items)[1..] == items;
    assert text + (after + rest) == "" + (text + (after + rest));
    assert ItemsParts(text + (after + rest), [item] + items, "", text, after, rest);
  }

  lemma CommaJoin(s: string, first: string, after: string, t: string, blank: string, next: string, more: string, tail: string)
    requires s == first + (after + t) && StartsWith(t, ',') && t[1..] == blank + next && next == more + tail
    ensures s == (first + (after + ("," + (blank + more)))) + tail
  {
    assert t == "," + (blank + (more + tail));
  }

  lemma CloseJoin(s: string, first: string, after: string, t: string, close: char)
    requires s == first + (after + t) && StartsWith(t, close)
    ensures s == (first + after) + ([close] + t[1..])
  {
    assert t == [close] + t[1..];
  }

  /** One item is read off, and what stands after it. */
  lemma {:induction false} ItemRead(s: string, depth: nat, prior: seq<Value>)
    returns (first: string, after: string, item: Value, t: string)
    requires ParseItems(s, depth, prior).Got?
    ensures s == first + (after + t) && IsText(first, item) && Blank(after) && t != "" && |t| <= |s|
    ensures
      || (t[0] == ',' && ParseItems(s, depth, prior) == ParseItems(SkipWhitespace(t[1..]), depth, prior + [item]))
      || (t[0] == ']' && ParseItems(s, depth, prior) == Got(Array(prior + [item]), t[1..]))
    decreases |s|, 2
  {
    var r := ParseValue(s, depth);
    first := ValueRead(s, depth);
    after := BlankRead(r.rest);
    item, t := r.value, SkipWhitespace(r.rest);
  }

  /** Items are read off as they stand, commas between them, up to the bracket. */
  lemma {:induction false} ItemsRead(s: string, depth: nat, prior: seq<Value>, value: Value, post: string)
    returns (text: string, items: seq<Value>)
    requires ParseItems(s, depth, prior) == Got(value, post)
    ensures items != [] && value == Array(prior + items) && IsItems(text, items) && s == text + ("]" + post)
    decreases |s|, 3
  {
    var first, after, item, t := ItemRead(s, depth, prior);
    if t[0] == ',' {
      var blank := BlankRead(t[1..]);
      var next := SkipWhitespace(t[1..]);
      var more, others := ItemsRead(next, depth, prior + [item], value, post);
      ItemsAfterBlank(blank, more, others);
      NextItem(first, after, item, blank + more, others);
      text, items := first + (after + ("," + (blank + more))), [item] + others;
      assert prior + [item] + others == prior + items;
      CommaJoin(s, first, after, t, blank, next, more, "]" + post);
    } else {
      LastItem(first, after, item);
      text, items := first + after, [item];
      CloseJoin(s, first, after, t, ']');
    }
  }

  // ---- Members ---------------------------------------------------------------------------

  lemma MembersAfterBlank(blank: string, s: string, members: seq<Member>)
    requires members != [] && Blank(blank) && IsMembers(s, members)
    ensures IsMembers(blank + s, members)
  {
    var before, text, after, rest :| MembersParts(s, members, before, text, after, rest);
    BlankSum(blank, before);
    assert blank + s == (blank + before) + (text + (after + rest));
    assert MembersParts(blank + s, members, blank + before, text, after, rest);
  }

  lemma LastMember(text: string, after: string, member: Member)
    requires IsMember(text, member) && Blank(after)
    ensures IsMembers(text + after, [member])
  {
    assert text + after == "" + (text + (after + ""));
    assert MembersParts(text + after, [member], "", text, after, "");
  }

  lemma NextMember(text: string, after: string, member: Member, s: string, members: seq<Member>)
    requires members != [] && IsMember(text, member) && Blank(after) && IsMembers(s, members)
    ensures IsMembers(text + (after + ("," + s)), [member] + members)
  {
    var rest := "," + s;
    assert rest[1..] == s && ([member] + members)[1..] == members;
    assert text + (after + rest) == "" + (text + (after + rest));
    assert MembersParts(text + (after + rest), [member] + members, "", text, after, rest);
  }

  lemma ColonRead(name: string, gap: string, lead: string, text: string, rest: string)
    ensures name + (gap + (":" + (lead + (text + rest)))) == (name + (gap + (":" + (lead + text)))) + rest
  {
  }

  lemma {:induction false} MemberRead(s: string, depth: nat, prior: seq<Member>) returns (text: string)
    requires ParseMember(s, depth, prior).Got?
    ensures IsMember(text, ParseMember(s, depth, prior).value) && s == text + ParseMember(s, depth, prior).rest
    decreases |s|, 1
  {
    var name := ParseChars(s[1..], "");
    var nameText := StringRead(s);
    var gap := BlankRead(name.rest);
    var t := SkipWhitespace(name.rest);
    assert t == [':'] + t[1..];
    var lead := BlankRead(t[1..]);
    var u := SkipWhitespace(t[1..]);
    var valueText := ValueRead(u, depth);
    var r := ParseMember(s, depth, prior);
    text := nameText + (gap + (":" + (lead + valueText)));
    ColonRead(nameText, gap, lead, valueText, r.rest);
    assert MemberParts(text, r.value, nameText, gap, lead, valueText);
  }

  lemma {:induction false} FirstMemberRead(s: string, depth: nat, prior: seq<Member>)
    returns (first: string, after: string, member: Member, t: string)
    requires ParseMembers(s, depth, prior).Got?
    ensures s == first + (after + t) && IsMember(first, member) && Blank(after) && t != "" && |t| <= |s|
    ensures
      || (t[0] == ',' && ParseMembers(s, depth, prior) == ParseMembers(SkipWhitespace(t[1..]), depth, prior + [member]))
      || (t[0] == '}' && ParseMembers(s, depth, prior) == Got(Object(prior + [member]), t[1..]))
    decreases |s|, 2
  {
    var r := ParseMember(s, depth, prior);
    first := MemberRead(s, depth, prior);
    after := BlankRead(r.rest);
    member, t := r.value, SkipWhitespace(r.rest);
  }

  lemma {:induction false} MembersRead(s: string, depth: nat, prior: seq<Member>, value: Value, post: string)
    returns (text: string, members: seq<Member>)
    requires ParseMembers(s, depth, prior) == Got(value, post)
    ensures members != [] && value == Object(prior + members) && IsMembers(text, members) && s == text + ("}" + post)
    decreases |s|, 3
  {
    var first, after, member, t := FirstMemberRead(s, depth, prior);
    if t[0] == ',' {
      var blank := BlankRead(t[1..]);
      var next := SkipWhitespace(t[1..]);
      var more, others := MembersRead(next, depth, prior + [member], value, post);
      MembersAfterBlank(blank, more, others);
      NextMember(first, after, member, blank + more, others);
      text, members := first + (after + ("," + (blank + more))), [member] + others;
      assert prior + [member] + others == prior + members;
      CommaJoin(s, first, after, t, blank, next, more, "}" + post);
    } else {
      LastMember(first, after, member);
      text, members := first + after, [member];
      CloseJoin(s, first, after, t, '}');
    }
  }

  // ---- Every text is read --------------------------------------------------------------------

  /** A text starts with what no blank and no closing bracket is. */
  lemma TextStarts(text: string, v: Value)
    requires IsText(text, v)
    ensures text != "" && !IsWhitespace(text[0]) && text[0] !in {']', '}', ',', BYTE_ORDER_MARK}
  {
    if v.Number? {
      WrittenNumberReadsBack(v.raw, "");
    }
  }

  lemma BlankEndsNumber(after: string, rest: string)
    requires Blank(after) && rest != "" && rest[0] in {',', ']', '}'}
    ensures EndsNumber(after + rest) && SkipWhitespace(after + rest) == rest
  {
    BlankReads(after, rest);
    assert (after + rest)[0] == if after == "" then rest[0] else after[0];
  }

  lemma WordReads(word: string, value: Value, post: string)
    requires word != ""
    ensures ParseWord(word + post, word, value) == Got(value, post)
  {
    assert word <= word + post && (word + post)[|word|..] == post;
  }

  /** Every text of a sound value is read as that value, or as too deep if it is. */
  lemma {:induction false} ValueReads(text: string, v: Value, depth: nat, post: string)
    requires IsText(text, v) && Sound(v) && EndsNumber(post) && depth <= MAX_DEPTH
    ensures ParseValue(text + post, depth) == if depth + Depth(v) <= MAX_DEPTH then Got(v, post) else Fail(TooDeep)
    decreases v, 3
  {
    match v
    case Null => WordReads("null", v, post);
    case Bool(b) => WordReads(text, v, post);
    case Number(raw) => WrittenNumberReadsBack(raw, post);
    case Text(value) => StringReads(text, value, post);
    case Array(items) => ArrayReads(text, items, depth, post);
    case Object(members) => ObjectReads(text, members, depth, post);
  }

  lemma OpenedText(text: string, post: string)
    requires |text| >= 2
    ensures (text + post)[1..] == text[1..|text| - 1] + ([text[|text| - 1]] + post)
  {
  }

  lemma {:induction false} ArrayReads(text: string, items: seq<Value>, depth: nat, post: string)
    requires IsText(text, Array(items)) && Sound(Array(items)) && depth <= MAX_DEPTH
    ensures ParseValue(text + post, depth)
      == if depth + Depth(Array(items)) <= MAX_DEPTH then Got(Array(items), post) else Fail(TooDeep)
    decreases items, 3
  {
    var inner := text[1..|text| - 1];
    OpenedText(text, post);
    if items == [] {
      BlankReads(inner, "]" + post);
    } else {
      ItemsStart(inner, items, "]" + post);
      if depth < MAX_DEPTH {
        ItemsReads(inner, items, [], depth + 1, post);
        assert [] + items == items;
      }
    }
  }

  /** The blanks before the first item are skipped. */
  lemma ItemsStart(s: string, items: seq<Value>, tail: string)
    requires items != [] && IsItems(s, items)
    ensures SkipWhitespace(s + tail) != "" && SkipWhitespace(s + tail)[0] != ']'
  {
    var before, text, after, rest :| ItemsParts(s, items, before, text, after, rest);
    TextStarts(text, items[0]);
    assert s + tail == before + (text + (after + (rest + tail)));
    BlankReads(before, text + (after + (rest + tail)));
  }

  lemma {:induction false} ItemsReads(s: string, items: seq<Value>, prior: seq<Value>, depth: nat, post: string)
    requires items != [] && IsItems(s, items) && 1 <= depth <= MAX_DEPTH && forall i | 0 <= i < |items| :: Sound(items[i])
    ensures ParseItems(SkipWhitespace(s + ("]" + post)), depth, prior)
      == if depth + ItemsDepth(items) <= MAX_DEPTH then Got(Array(prior + items), post) else Fail(TooDeep)
    decreases items, 2
  {
    var before, text, after, rest :| ItemsParts(s, items, before, text, after, rest);
    var tail := rest + ("]" + post);
    TextStarts(text, items[0]);
    ListSplits(s, before, text, after, rest, "]" + post);
    BlankReads(before, text + (after + tail));
    BlankEndsNumber(after, tail);
    ValueReads(text, items[0], depth, after + tail);
    if depth + Depth(items[0]) <= MAX_DEPTH {
      ItemsStep(text + (after + tail), depth, prior, items[0], after + tail);
      if |items| == 1 {
        assert tail == "]" + post && tail[1..] == post && [items[0]] == items;
      } else {
        assert tail[1..] == rest[1..] + ("]" + post);
        ItemsReads(rest[1..], items[1..], prior + [items[0]], depth, post);
        assert prior + [items[0]] + items[1..] == prior + items;
      }
    } else {
      ItemsFail(text + (after + tail), depth, prior);
    }
  }

  lemma ListSplits(s: string, before: string, text: string, after: string, rest: string, tail: string)
    requires s == before + (text + (after + rest))
    ensures s + tail == before + (text + (after + (rest + tail)))
  {
  }

  lemma {:induction false} ObjectReads(text: string, members: seq<Member>, depth: nat, post: string)
    requires IsText(text, Object(members)) && Sound(Object(members)) && depth <= MAX_DEPTH
    ensures ParseValue(text + post, depth)
      == if depth + Depth(Object(members)) <= MAX_DEPTH then Got(Object(members), post) else Fail(TooDeep)
    decreases members, 3
  {
    var inner := text[1..|text| - 1];
    OpenedText(text, post);
    if members == [] {
      BlankReads(inner, "}" + post);
    } else {
      MembersStart(inner, members, "}" + post);
      if depth < MAX_DEPTH {
        MembersReads(inner, members, [], depth + 1, post);
        assert [] + members == members;
      }
    }
  }

  lemma MemberStarts(text: string, m: Member)
    requires IsMember(text, m)
    ensures text != "" && text[0] == '"'
  {
    var name, gap, lead, value :| MemberParts(text, m, name, gap, lead, value);
    assert text[0] == name[0];
  }

  lemma MembersStart(s: string, members: seq<Member>, tail: string)
    requires members != [] && IsMembers(s, members)
    ensures SkipWhitespace(s + tail) != "" && SkipWhitespace(s + tail)[0] != '}'
  {
    var before, text, after, rest :| MembersParts(s, members, before, text, after, rest);
    MemberStarts(text, members[0]);
    assert s + tail == before + (text + (after + (rest + tail)));
    BlankReads(before, text + (after + (rest + tail)));
  }

  lemma {:induction false} MemberReads(text: string, m: Member, prior: seq<Member>, depth: nat, post: string)
    requires IsMember(text, m) && Sound(m.value) && !HasName(prior, m.name) && EndsNumber(post) && depth <= MAX_DEPTH
    ensures ParseMember(text + post, depth, prior)
      == if depth + Depth(m.value) <= MAX_DEPTH then Got(m, post) else Fail(TooDeep)
    decreases m, 1
  {
    var name, gap, lead, value :| MemberParts(text, m, name, gap, lead, value);
    ColonRead(name, gap, lead, value, post);
    var t := ":" + (lead + (value + post));
    StringReads(name, m.name, gap + t);
    BlankReads(gap, t);
    assert t[1..] == lead + (value + post);
    TextStarts(value, m.value);
    BlankReads(lead, value + post);
    ValueReads(value, m.value, depth, post);
  }

  lemma {:induction false} MembersReads(s: string, members: seq<Member>, prior: seq<Member>, depth: nat, post: string)
    requires members != [] && IsMembers(s, members) && 1 <= depth <= MAX_DEPTH && DistinctNames(prior + members)
    requires forall i | 0 <= i < |members| :: Sound(members[i].value)
    ensures ParseMembers(SkipWhitespace(s + ("}" + post)), depth, prior)
      == if depth + MembersDepth(members) <= MAX_DEPTH then Got(Object(prior + members), post) else Fail(TooDeep)
    decreases members, 2
  {
    var before, text, after, rest :| MembersParts(s, members, before, text, after, rest);
    var tail := rest + ("}" + post);
    MemberStarts(text, members[0]);
    ListSplits(s, before, text, after, rest, "}" + post);
    BlankReads(before, text + (after + tail));
    BlankEndsNumber(after, tail);
    NameIsNew(prior, members);
    MemberReads(text, members[0], prior, depth, after + tail);
    if depth + Depth(members[0].value) <= MAX_DEPTH {
      MembersStep(text + (after + tail), depth, prior, members[0], after + tail);
      if |members| == 1 {
        assert tail == "}" + post && tail[1..] == post && [members[0]] == members;
      } else {
        assert tail[1..] == rest[1..] + ("}" + post);
        assert prior + [members[0]] + members[1..] == prior + members;
        MembersReads(rest[1..], members[1..], prior + [members[0]], depth, post);
      }
    } else {
      MembersFail(text + (after + tail), depth, prior);
    }
  }

  lemma NameIsNew(prior: seq<Member>, members: seq<Member>)
    requires members != [] && DistinctNames(prior + members)
    ensures !HasName(prior, members[0].name)
  {
    var all := prior + members;
    forall i | 0 <= i < |prior| ensures prior[i].name != members[0].name {
      assert all[i] == prior[i] && all[|prior|] == members[0];
    }
  }

  // ---- Documents --------------------------------------------------------------------------------

  lemma MarkTaken(doc: string, mark: string, rest: string)
    requires doc == mark + rest && (mark == "" || mark == [BYTE_ORDER_MARK]) && !StartsWith(rest, BYTE_ORDER_MARK)
    ensures (if StartsWith(doc, BYTE_ORDER_MARK) then doc[1..] else doc) == rest
  {
  }

  /** A text of a sound value is read as it, or refused for its depth alone. */
  lemma TextIsRead(doc: string, v: Value)
    requires IsDocument(doc, v) && Sound(v)
    ensures Parse(doc) == if Depth(v) <= MAX_DEPTH then Ok(v) else Err(TooDeep)
  {
    var mark, before, text, after :| DocumentParts(doc, v, mark, before, text, after);
    TextStarts(text, v);
    var rest := before + (text + after);
    assert !StartsWith(rest, BYTE_ORDER_MARK) by {
      assert rest[0] == if before == "" then text[0] else before[0];
    }
    MarkTaken(doc, mark, rest);
    BlankReads(before, text + after);
    assert EndsNumber(after);
    ValueReads(text, v, 0, after);
    assert after + "" == after;
    BlankReads(after, "");
  }

  lemma ReadIsText(doc: string)
    requires Parse(doc).Ok?
    ensures IsDocument(doc, Parse(doc).value)
  {
    var mark := if StartsWith(doc, BYTE_ORDER_MARK) then [BYTE_ORDER_MARK] else "";
    var start := if StartsWith(doc, BYTE_ORDER_MARK) then doc[1..] else doc;
    var before := BlankRead(start);
    var s := SkipWhitespace(start);
    var text := ValueRead(s, 0);
    var rest := ParseValue(s, 0).rest;
    var after := BlankRead(rest);
    assert after + "" == after;
    assert doc == mark + (before + (text + after));
    assert DocumentParts(doc, Parse(doc).value, mark, before, text, after);
  }

  /** A document is accepted as a tree exactly when it is a text of it and the tree is
      acceptable. */
  lemma AcceptsExactlyTheGrammar(doc: string, v: Value)
    ensures Parse(doc) == Ok(v) <==> IsDocument(doc, v) && Acceptable(v)
  {
    if Parse(doc) == Ok(v) {
      ReadIsText(doc);
      AcceptedIsAcceptable(doc);
    }
    if IsDocument(doc, v) && Acceptable(v) {
      TextIsRead(doc, v);
    }
  }

  /** A document is empty exactly when nothing but blanks follows the mark. */
  lemma EmptyIffBlank(doc: string)
    ensures Parse(doc) == Err(Empty) <==> Blank(doc) || (StartsWith(doc, BYTE_ORDER_MARK) && Blank(doc[1..]))
  {
    var start := if StartsWith(doc, BYTE_ORDER_MARK) then doc[1..] else doc;
    var blank := BlankRead(start);
    NeverEmpty(SkipWhitespace(start), 0);
    if Blank(start) {
      assert start + "" == start;
      BlankReads(start, "");
    }
    if SkipWhitespace(start) == "" {
      assert start == blank;
    }
  }

  lemma {:induction false} NeverEmpty(s: string, depth: nat)
    ensures ParseValue(s, depth) != Fail(Empty)
    decreases |s|, 1
  {
    if s != "" && (s[0] == '[' || s[0] == '{') {
      ListNeverEmpty(SkipWhitespace(s[1..]), depth + 1, [], []);
    } else if s != "" && s[0] == '"' {
      CharsNeverEmpty(s[1..], "");
    }
  }

  lemma {:induction false} CharsNeverEmpty(s: string, out: string)
    ensures ParseChars(s, out) != Fail(Empty)
    decreases |s|
  {
    if s != "" && s[0] == '\\' {
      var r := ParseEscape(s[1..]);
      if r.Got? {
        CharsNeverEmpty(r.rest, out + [r.value]);
      }
    } else if s != "" && s[0] != '"' && s[0] >= ' ' {
      CharsNeverEmpty(s[1..], out + [s[0]]);
    }
  }

  lemma {:induction false} ListNeverEmpty(s: string, depth: nat, items: seq<Value>, members: seq<Member>)
    ensures ParseItems(s, depth, items) != Fail(Empty)
    ensures ParseMembers(s, depth, members) != Fail(Empty)
    decreases |s|, 3
  {
    NeverEmpty(s, depth);
    var item := ParseValue(s, depth);
    if item.Got? && StartsWith(SkipWhitespace(item.rest), ',') {
      ListNeverEmpty(SkipWhitespace(SkipWhitespace(item.rest)[1..]), depth, items + [item.value], members);
    }
    MemberNeverEmpty(s, depth, members);
    var member := ParseMember(s, depth, members);
    if member.Got? && StartsWith(SkipWhitespace(member.rest), ',') {
      ListNeverEmpty(SkipWhitespace(SkipWhitespace(member.rest)[1..]), depth, items, members + [member.value]);
    }
  }

  lemma {:induction false} MemberNeverEmpty(s: string, depth: nat, members: seq<Member>)
    ensures ParseMember(s, depth, members) != Fail(Empty)
    decreases |s|, 2
  {
    if StartsWith(s, '"') {
      CharsNeverEmpty(s[1..], "");
      var name := ParseChars(s[1..], "");
      if name.Got? && StartsWith(SkipWhitespace(name.rest), ':') {
        NeverEmpty(SkipWhitespace(SkipWhitespace(name.rest)[1..]), depth);
      }
    }
  }
}
