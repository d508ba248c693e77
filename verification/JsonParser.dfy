/** The reader as it runs: a cursor moved over the text, one value at a time. */
module JsonParser {
  import opened Wrappers
  import opened Numerals
  import opened JsonValues
  import opened JsonReading

  /** The outcome of one call, and the text it left, are what the functions say.
      After a failure the cursor is of no interest. */
  predicate Agrees<T(==)>(r: Result<T, ErrorKind>, rest: string, parsed: Parsed<T>) {
    match parsed
    case Got(value, left) => r == Ok(value) && rest == left
    case Fail(e) => r == Err(e)
  }

  class Parser {
    const text: string
    var offset: nat

    ghost predicate Valid()
      reads this`offset
    {
      offset <= |text|
    }

    /** The text still unread. */
    function Rest(): string
      requires Valid()
      reads this`offset
    {
      text[offset..]
    }

    constructor (text: string)
      ensures Valid() && this.text == text && offset == 0
    {
      this.text := text;
      offset := 0;
    }

    function Peek(): (c: Option<char>)
      requires Valid()
      reads this`offset
      ensures c == if Rest() == "" then None else Some(Rest()[0])
    {
      if offset < |text| then Some(text[offset]) else None
    }

    method Advance()
      requires Valid() && Rest() != ""
      modifies this`offset
      ensures Valid() && offset == old(offset) + 1 && Rest() == old(Rest())[1..]
    {
      offset := offset + 1;
    }

    method SkipBlanks()
      requires Valid()
      modifies this`offset
      ensures Valid() && offset >= old(offset) && Rest() == SkipWhitespace(old(Rest()))
    {
      while Peek().Some? && IsWhitespace(Peek().value)
        invariant Valid() && offset >= old(offset)
        invariant SkipWhitespace(Rest()) == SkipWhitespace(old(Rest()))
        decreases |text| - offset
      {
        Advance();
      }
    }

    // ---- Numbers ---------------------------------------------------------------

    method Digits()
      requires Valid()
      modifies this`offset
      ensures Valid() && offset >= old(offset) && Rest() == DropDigits(old(Rest()))
    {
      while Peek().Some? && IsDigit(Peek().value)
        invariant Valid() && offset >= old(offset)
        invariant DropDigits(Rest()) == DropDigits(old(Rest()))
        decreases |text| - offset
      {
        Advance();
      }
    }

    predicate AtDigit()
      requires Valid()
      reads this`offset
      ensures AtDigit() == StartsWithDigit(Rest())
    {
      Peek().Some? && IsDigit(Peek().value)
    }

    method WholePart() returns (ok: bool)
      requires Valid()
      modifies this`offset
      ensures Valid() && offset >= old(offset)
      ensures AfterInt(old(Rest())) == if ok then Some(Rest()) else None
    {
      if Peek() == Some('0') {
        Advance();
        ok := true;
      } else if AtDigit() {
        Advance();
        Digits();
        ok := true;
      } else {
        ok := false;
      }
    }

    method FractionPart() returns (ok: bool)
      requires Valid()
      modifies this`offset
      ensures Valid() && offset >= old(offset)
      ensures AfterFraction(old(Rest())) == if ok then Some(Rest()) else None
    {
      ok := true;
      if Peek() == Some('.') {
        Advance();
        ok := AtDigit();
        if ok {
          Digits();
        }
      }
    }

    method ExponentPart() returns (ok: bool)
      requires Valid()
      modifies this`offset
      ensures Valid() && offset >= old(offset)
      ensures AfterExponent(old(Rest())) == if ok then Some(Rest()) else None
    {
      ok := true;
      if Peek() == Some('e') || Peek() == Some('E') {
        Advance();
        if Peek() == Some('+') || Peek() == Some('-') {
          Advance();
        }
        ok := AtDigit();
        if ok {
          Digits();
        }
      }
    }

    method NumberText() returns (r: Result<string, ErrorKind>)
      requires Valid()
      modifies this`offset
      ensures Valid() && Agrees(r, Rest(), ParseNumber(old(Rest())))
    {
      var start := offset;
      if Peek() == Some('-') {
        Advance();
      }
      var ok := WholePart();
      if !ok {
        return Err(Syntax);
      }
      ok := FractionPart();
      if !ok {
        return Err(Syntax);
      }
      ok := ExponentPart();
      if !ok || AtDigit() {
        return Err(Syntax);
      }
      r := Ok(text[start..offset]);
      assert text[start..offset] == old(Rest())[..offset - start];
    }

    // ---- Strings -----------------------------------------------------------------

    method Hex4() returns (r: Result<nat, ErrorKind>)
      requires Valid()
      modifies this`offset
      ensures Valid() && Agrees(r, Rest(), ParseHex4(old(Rest())))
      ensures r.Ok? ==> r.value < 0x10000
    {
      if |text| - offset < 4 {
        return Err(Syntax);
      }
      var digits := text[offset..offset + 4];
      ghost var s := Rest();
      assert digits == s[..4];
      var value := 0;
      for i := 0 to 4
        invariant offset == old(offset)
        invariant forall j | 0 <= j < i :: HexValue(digits[j]).Some?
        invariant i == 0 ==> value == 0
        invariant i == 1 ==> value == HexValue(digits[0]).value
        invariant i == 2 ==> value == HexValue(digits[0]).value * 16 + HexValue(digits[1]).value
        invariant i == 3 ==> value == (HexValue(digits[0]).value * 16 + HexValue(digits[1]).value) * 16 + HexValue(digits[2]).value
        invariant i == 4 ==> value == ((HexValue(digits[0]).value * 16 + HexValue(digits[1]).value) * 16 + HexValue(digits[2]).value) * 16 + HexValue(digits[3]).value
      {
        var nibble := HexValue(digits[i]);
        if nibble.None? {
          assert HexValue(s[i]).None?;
          return Err(Syntax);
        }
        value := value * 16 + nibble.value;
      }
      offset := offset + 4;
      assert forall i | 0 <= i < 4 :: digits[i] == s[i];
      assert Rest() == s[4..];
      r := Ok(value);
    }

    method UnicodeEscape() returns (r: Result<char, ErrorKind>)
      requires Valid()
      modifies this`offset
      ensures Valid() && Agrees(r, Rest(), ParseUnicode(old(Rest())))
    {
      var first := Hex4();
      if first.Err? {
        return Err(first.error);
      }
      var unit := first.value;
      if 0xD800 <= unit <= 0xDBFF {
        if !("\\u" <= text[offset..]) {
          return Err(Syntax);
        }
        ghost var rest := Rest();
        offset := offset + 2;
        assert Rest() == rest[2..];
        var low := Hex4();
        if low.Err? {
          return Err(low.error);
        }
        if !(0xDC00 <= low.value <= 0xDFFF) {
          return Err(Syntax);
        }
        r := Ok((0x10000 + (unit - 0xD800) * 0x400 + (low.value - 0xDC00)) as char);
      } else if 0xDC00 <= unit <= 0xDFFF {
        r := Err(Syntax);
      } else {
        r := Ok(unit as char);
      }
    }

    method Escape() returns (r: Result<char, ErrorKind>)
      requires Valid()
      modifies this`offset
      ensures Valid() && Agrees(r, Rest(), ParseEscape(old(Rest())))
    {
      if Peek().None? {
        return Err(Syntax);
      }
      var c := Peek().value;
      Advance();
      match c
      case '"' => r := Ok('"');
      case '\\' => r := Ok('\\');
      case '/' => r := Ok('/');
      case 'b' => r := Ok(8 as char);
      case 'f' => r := Ok(12 as char);
      case 'n' => r := Ok('\n');
      case 'r' => r := Ok('\r');
      case 't' => r := Ok('\t');
      case 'u' => r := UnicodeEscape();
      case _ => r := Err(Syntax);
    }

    /** A string, from its opening quote. Plain characters are taken a run at a
        time. */
    method StringText() returns (r: Result<string, ErrorKind>)
      requires Valid() && Rest() != ""
      modifies this`offset
      ensures Valid() && Agrees(r, Rest(), ParseChars(old(Rest())[1..], ""))
      ensures r.Ok? ==> offset > old(offset)
    {
      Advance();
      var out := "";
      var runStart := offset;
      ghost var start := Rest();
      assert out + text[runStart..offset] == "";
      while true
        invariant Valid() && old(offset) < runStart <= offset
        invariant ParseChars(start, "") == ParseChars(Rest(), out + text[runStart..offset])
        decreases |text| - offset
      {
        if Peek().None? {
          return Err(Syntax);
        }
        var c := Peek().value;
        if c == '"' {
          out := out + text[runStart..offset];
          Advance();
          return Ok(out);
        } else if c == '\\' {
          out := out + text[runStart..offset];
          Advance();
          var escape := Escape();
          if escape.Err? {
            return Err(escape.error);
          }
          out := out + [escape.value];
          runStart := offset;
          assert text[runStart..offset] == "" && out + "" == out;
        } else if c < ' ' {
          return Err(Syntax);
        } else {
          ghost var run := text[runStart..offset];
          Advance();
          assert text[runStart..offset] == run + [c];
          assert out + run + [c] == out + (run + [c]);
        }
      }
    }

    // ---- Values --------------------------------------------------------------------

    method Literal(word: string, value: Value) returns (r: Result<Value, ErrorKind>)
      requires Valid() && word != ""
      modifies this`offset
      ensures Valid() && Agrees(r, Rest(), ParseWord(old(Rest()), word, value))
    {
      if word <= text[offset..] {
        ghost var rest := Rest();
        offset := offset + |word|;
        assert Rest() == rest[|word|..];
        r := Ok(value);
      } else {
        r := Err(Syntax);
      }
    }

    method ReadValue(depth: nat) returns (r: Result<Value, ErrorKind>)
      requires Valid()
      modifies this`offset
      ensures Valid() && Agrees(r, Rest(), ParseValue(old(Rest()), depth))
      decreases |text| - offset, 1
    {
      if Peek().None? {
        return Err(Syntax);
      }
      var c := Peek().value;
      if c == '{' {
        r := ReadObject(depth + 1);
      } else if c == '[' {
        r := ReadArray(depth + 1);
      } else if c == '"' {
        var s := StringText();
        r := if s.Ok? then Ok(Text(s.value)) else Err(s.error);
      } else if c == 't' {
        r := Literal("true", Bool(true));
      } else if c == 'f' {
        r := Literal("false", Bool(false));
      } else if c == 'n' {
        r := Literal("null", Null);
      } else if c == '-' || IsDigit(c) {
        var n := NumberText();
        r := if n.Ok? then Ok(Number(n.value)) else Err(n.error);
      } else {
        r := Err(Syntax);
      }
    }

    method ReadArray(depth: nat) returns (r: Result<Value, ErrorKind>)
      requires Valid() && StartsWith(Rest(), '[') && depth > 0
      modifies this`offset
      ensures Valid() && Agrees(r, Rest(), ParseValue(old(Rest()), depth - 1))
      decreases |text| - offset, 0
    {
      if depth > MAX_DEPTH {
        return Err(TooDeep);
      }
      Advance();
      SkipBlanks();
      var items := [];
      if Peek() == Some(']') {
        Advance();
        return Ok(Array(items));
      }
      ghost var start := Rest();
      while true
        invariant Valid() && offset > old(offset)
        invariant ParseItems(start, depth, []) == ParseItems(Rest(), depth, items)
        decreases |text| - offset
      {
        ghost var before := Rest();
        var item := ReadValue(depth);
        if item.Err? {
          return Err(item.error);
        }
        items := items + [item.value];
        SkipBlanks();
        if Peek() == Some(',') {
          Advance();
          SkipBlanks();
          assert |Rest()| < |before|;
        } else if Peek() == Some(']') {
          Advance();
          return Ok(Array(items));
        } else {
          return Err(Syntax);
        }
      }
    }

    /** One member, its name not among `members`. */
    method ReadMember(depth: nat, members: seq<Member>, names: set<string>) returns (r: Result<Member, ErrorKind>)
      requires Valid()
      requires forall name :: name in names <==> HasName(members, name)
      modifies this`offset
      ensures Valid() && Agrees(r, Rest(), ParseMember(old(Rest()), depth, members))
      decreases |text| - offset, 2
    {
      if Peek() != Some('"') {
        return Err(Syntax);
      }
      var name := StringText();
      if name.Err? {
        return Err(name.error);
      }
      if name.value in names {
        return Err(DuplicateMember);
      }
      SkipBlanks();
      if Peek() != Some(':') {
        return Err(Syntax);
      }
      Advance();
      SkipBlanks();
      var value := ReadValue(depth);
      r := if value.Ok? then Ok(Member(name.value, value.value)) else Err(value.error);
    }

    method ReadObject(depth: nat) returns (r: Result<Value, ErrorKind>)
      requires Valid() && StartsWith(Rest(), '{') && depth > 0
      modifies this`offset
      ensures Valid() && Agrees(r, Rest(), ParseValue(old(Rest()), depth - 1))
      decreases |text| - offset, 0
    {
      if depth > MAX_DEPTH {
        return Err(TooDeep);
      }
      Advance();
      SkipBlanks();
      var members: seq<Member> := [];
      var names: set<string> := {};
      if Peek() == Some('}') {
        Advance();
        return Ok(Object(members));
      }
      ghost var start := Rest();
      while true
        invariant Valid() && offset > old(offset)
        invariant forall name :: name in names <==> HasName(members, name)
        invariant ParseMembers(start, depth, []) == ParseMembers(Rest(), depth, members)
        decreases |text| - offset
      {
        ghost var before := Rest();
        var member := ReadMember(depth, members, names);
        if member.Err? {
          return Err(member.error);
        }
        NamesGrow(members, member.value, names);
        members := members + [member.value];
        names := names + {member.value.name};
        SkipBlanks();
        if Peek() == Some(',') {
          Advance();
          SkipBlanks();
          assert |Rest()| < |before|;
        } else if Peek() == Some('}') {
          Advance();
          return Ok(Object(members));
        } else {
          return Err(Syntax);
        }
      }
    }
  }

  lemma NamesGrow(members: seq<Member>, member: Member, names: set<string>)
    requires forall name :: name in names <==> HasName(members, name)
    ensures forall name :: name in names + {member.name} <==> HasName(members + [member], name)
  {
    var all := members + [member];
    forall name ensures name in names + {member.name} <==> HasName(all, name) {
      if HasName(members, name) {
        var i :| 0 <= i < |members| && members[i].name == name;
        assert all[i].name == name;
      }
      if name == member.name {
        assert all[|members|].name == name;
      }
    }
  }

  /** Parses a whole document; a leading byte-order mark is skipped. */
  method ParseDocument(doc: string) returns (r: Result<Value, ErrorKind>)
    ensures r == Parse(doc)
  {
    var parser := new Parser(if StartsWith(doc, BYTE_ORDER_MARK) then doc[1..] else doc);
    parser.SkipBlanks();
    if parser.Peek().None? {
      return Err(Empty);
    }
    var value := parser.ReadValue(0);
    if value.Err? {
      return value;
    }
    parser.SkipBlanks();
    r := if parser.Peek().Some? then Err(Syntax) else value;
  }
}
