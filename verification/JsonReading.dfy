/** The strict reader as functions from the text that is left to what was read and the
    text left after it. Each is one rule of the grammar; failing carries the kind of
    error, and what is left is never longer than what was there. This is what the
    moving parser must agree with, and what reading back is stated about. */
module JsonReading {
  import opened Wrappers
  import opened Numerals
  import opened JsonValues

  datatype Parsed<+T> = Got(value: T, rest: string) | Fail(error: ErrorKind)

  predicate StartsWith(s: string, c: char) {
    s != "" && s[0] == c
  }

  predicate StartsWithDigit(s: string) {
    s != "" && IsDigit(s[0])
  }

  predicate IsWhitespace(c: char) {
    c == ' ' || c == '\t' || c == '\r' || c == '\n'
  }

  function SkipWhitespace(s: string): (r: string)
    ensures |r| <= |s|
  {
    if s != "" && IsWhitespace(s[0]) then SkipWhitespace(s[1..]) else s
  }

  // ---- Numbers ---------------------------------------------------------------

  function DropDigits(s: string): (r: string)
    ensures |r| <= |s|
  {
    if StartsWithDigit(s) then DropDigits(s[1..]) else s
  }

  /** What follows the whole part, the fraction and the exponent; none when the
      part is malformed. */
  function AfterInt(s: string): (r: Option<string>)
    ensures r.Some? ==> |r.value| < |s|
  {
    if s == "" then None
    else if s[0] == '0' then Some(s[1..])
    else if IsDigit(s[0]) then Some(DropDigits(s[1..]))
    else None
  }

  function AfterFraction(s: string): (r: Option<string>)
    ensures r.Some? ==> |r.value| <= |s|
  {
    if !StartsWith(s, '.') then Some(s)
    else if StartsWithDigit(s[1..]) then Some(DropDigits(s[1..]))
    else None
  }

  function AfterSign(s: string): (r: string)
    ensures |r| <= |s|
  {
    if StartsWith(s, '+') || StartsWith(s, '-') then s[1..] else s
  }

  function AfterExponent(s: string): (r: Option<string>)
    ensures r.Some? ==> |r.value| <= |s|
  {
    if !(StartsWith(s, 'e') || StartsWith(s, 'E')) then Some(s)
    else if StartsWithDigit(AfterSign(s[1..])) then Some(DropDigits(AfterSign(s[1..])))
    else None
  }

  function AfterMinus(s: string): (r: string)
    ensures |r| <= |s|
  {
    if StartsWith(s, '-') then s[1..] else s
  }

  function AfterNumber(s: string): (r: Option<string>)
    ensures r.Some? ==> |r.value| < |s|
  {
    match AfterInt(AfterMinus(s))
    case None => None
    case Some(a) =>
      match AfterFraction(a)
      case None => None
      case Some(b) =>
        match AfterExponent(b)
        case None => None
        case Some(c) => if StartsWithDigit(c) then None else Some(c)
  }

  function ParseNumber(s: string): (r: Parsed<string>)
    ensures r.Got? ==> |r.rest| < |s|
  {
    match AfterNumber(s)
    case Some(rest) => Got(s[..|s| - |rest|], rest)
    case None => Fail(Syntax)
  }

  // ---- Strings -----------------------------------------------------------------

  function HexValue(c: char): Option<nat> {
    if '0' <= c <= '9' then Some(c as int - '0' as int)
    else if 'a' <= c <= 'f' then Some(c as int - 'a' as int + 10)
    else if 'A' <= c <= 'F' then Some(c as int - 'A' as int + 10)
    else None
  }

  function ParseHex4(s: string): (r: Parsed<nat>)
    ensures r.Got? ==> |r.rest| < |s| && r.value < 0x10000
  {
    if |s| < 4 || exists i | 0 <= i < 4 :: HexValue(s[i]).None? then Fail(Syntax)
    else
      assert forall i | 0 <= i < 4 :: HexValue(s[i]).Some? && HexValue(s[i]).value < 16;
      Got(((HexValue(s[0]).value * 16 + HexValue(s[1]).value) * 16 + HexValue(s[2]).value) * 16
          + HexValue(s[3]).value, s[4..])
  }

  /** The character after `\u`: one unit, or a high surrogate and the low one
      that must follow it. */
  function ParseUnicode(s: string): (r: Parsed<char>)
    ensures r.Got? ==> |r.rest| < |s|
  {
    match ParseHex4(s)
    case Fail(e) => Fail(e)
    case Got(unit, rest) =>
      if 0xD800 <= unit <= 0xDBFF then
        if |rest| < 2 || rest[0] != '\\' || rest[1] != 'u' then Fail(Syntax)
        else
          match ParseHex4(rest[2..])
          case Fail(e) => Fail(e)
          case Got(low, rest') =>
            if !(0xDC00 <= low <= 0xDFFF) then Fail(Syntax)
            else Got((0x10000 + (unit - 0xD800) * 0x400 + (low - 0xDC00)) as char, rest')
      else if 0xDC00 <= unit <= 0xDFFF then Fail(Syntax)
      else Got(unit as char, rest)
  }

  /** The character of an escape, its backslash already read. */
  function ParseEscape(s: string): (r: Parsed<char>)
    ensures r.Got? ==> |r.rest| < |s|
  {
    if s == "" then Fail(Syntax)
    else
      match s[0]
      case '"' => Got('"', s[1..])
      case '\\' => Got('\\', s[1..])
      case '/' => Got('/', s[1..])
      case 'b' => Got(8 as char, s[1..])
      case 'f' => Got(12 as char, s[1..])
      case 'n' => Got('\n', s[1..])
      case 'r' => Got('\r', s[1..])
      case 't' => Got('\t', s[1..])
      case 'u' => ParseUnicode(s[1..])
      case _ => Fail(Syntax)
  }

  /** The rest of a string, `out` of it already read. */
  function ParseChars(s: string, out: string): (r: Parsed<string>)
    ensures r.Got? ==> |r.rest| < |s|
    decreases |s|
  {
    if s == "" then Fail(Syntax)
    else if s[0] == '"' then Got(out, s[1..])
    else if s[0] == '\\' then
      match ParseEscape(s[1..])
      case Fail(e) => Fail(e)
      case Got(c, rest) => ParseChars(rest, out + [c])
    else if s[0] < ' ' then Fail(Syntax)
    else ParseChars(s[1..], out + [s[0]])
  }

  // ---- Values -----------------------------------------------------------------------

  function ParseWord(s: string, word: string, value: Value): (r: Parsed<Value>)
    requires word != ""
    ensures r.Got? ==> |r.rest| < |s|
  {
    if word <= s then Got(value, s[|word|..]) else Fail(Syntax)
  }

  predicate StartsNumber(c: char) {
    c == '-' || IsDigit(c)
  }

  function ParseValue(s: string, depth: nat): (r: Parsed<Value>)
    ensures r.Got? ==> |r.rest| < |s|
    decreases |s|, 1
  {
    if s == "" then Fail(Syntax)
    else if s[0] == '{' then
      if depth + 1 > MAX_DEPTH then Fail(TooDeep)
      else
        var t := SkipWhitespace(s[1..]);
        if StartsWith(t, '}') then Got(Object([]), t[1..]) else ParseMembers(t, depth + 1, [])
    else if s[0] == '[' then
      if depth + 1 > MAX_DEPTH then Fail(TooDeep)
      else
        var t := SkipWhitespace(s[1..]);
        if StartsWith(t, ']') then Got(Array([]), t[1..]) else ParseItems(t, depth + 1, [])
    else if s[0] == '"' then
      match ParseChars(s[1..], "")
      case Got(text, rest) => Got(Text(text), rest)
      case Fail(e) => Fail(e)
    else if s[0] == 't' then ParseWord(s, "true", Bool(true))
    else if s[0] == 'f' then ParseWord(s, "false", Bool(false))
    else if s[0] == 'n' then ParseWord(s, "null", Null)
    else if StartsNumber(s[0]) then
      match ParseNumber(s)
      case Got(raw, rest) => Got(Number(raw), rest)
      case Fail(e) => Fail(e)
    else Fail(Syntax)
  }

  /** The rest of an array from the start of an item, `items` already read. */
  function ParseItems(s: string, depth: nat, items: seq<Value>): (r: Parsed<Value>)
    ensures r.Got? ==> |r.rest| < |s|
    decreases |s|, 2
  {
    match ParseValue(s, depth)
    case Fail(e) => Fail(e)
    case Got(item, rest) =>
      var t := SkipWhitespace(rest);
      if StartsWith(t, ',') then ParseItems(SkipWhitespace(t[1..]), depth, items + [item])
      else if StartsWith(t, ']') then Got(Array(items + [item]), t[1..])
      else Fail(Syntax)
  }

  predicate HasName(members: seq<Member>, name: string) {
    exists i | 0 <= i < |members| :: members[i].name == name
  }

  /** One member: its name, not among `members`, a colon, its value. */
  function ParseMember(s: string, depth: nat, members: seq<Member>): (r: Parsed<Member>)
    ensures r.Got? ==> |r.rest| < |s|
    decreases |s|, 2
  {
    if !StartsWith(s, '"') then Fail(Syntax)
    else
      match ParseChars(s[1..], "")
      case Fail(e) => Fail(e)
      case Got(name, rest) =>
        if HasName(members, name) then Fail(DuplicateMember)
        else
          var t := SkipWhitespace(rest);
          if !StartsWith(t, ':') then Fail(Syntax)
          else
            match ParseValue(SkipWhitespace(t[1..]), depth)
            case Fail(e) => Fail(e)
            case Got(value, rest') => Got(Member(name, value), rest')
  }

  /** The rest of an object from the start of a member, `members` already read. */
  function ParseMembers(s: string, depth: nat, members: seq<Member>): (r: Parsed<Value>)
    ensures r.Got? ==> |r.rest| < |s|
    decreases |s|, 3
  {
    match ParseMember(s, depth, members)
    case Fail(e) => Fail(e)
    case Got(member, rest) =>
      var t := SkipWhitespace(rest);
      if StartsWith(t, ',') then ParseMembers(SkipWhitespace(t[1..]), depth, members + [member])
      else if StartsWith(t, '}') then Got(Object(members + [member]), t[1..])
      else Fail(Syntax)
  }

  const BYTE_ORDER_MARK := 0xFEFF as char

  function Parse(doc: string): Result<Value, ErrorKind> {
    var s := SkipWhitespace(if StartsWith(doc, BYTE_ORDER_MARK) then doc[1..] else doc);
    if s == "" then Err(Empty)
    else
      match ParseValue(s, 0)
      case Fail(e) => Err(e)
      case Got(value, rest) => if SkipWhitespace(rest) == "" then Ok(value) else Err(Syntax)
  }
}
