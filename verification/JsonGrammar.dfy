/** The grammar of JSON texts (sections 2 to 7 of RFC 8259) over whole strings, and what
    each text means. Nothing here says how a text is read. */
module JsonGrammar {
  import opened Numerals
  import opened JsonValues

  predicate Blank(s: string) {
    forall i | 0 <= i < |s| :: s[i] in {' ', '\t', '\n', '\r'}
  }

  // ---- Strings -------------------------------------------------------------------

  predicate IsHexDigit(c: char, d: nat) {
    if d < 10 then c as int == '0' as int + d
    else d < 16 && (c as int == 'a' as int + (d - 10) || c as int == 'A' as int + (d - 10))
  }

  predicate AreDigits(s: string, a: nat, b: nat, c: nat, d: nat)
    requires |s| == 4
  {
    IsHexDigit(s[0], a) && IsHexDigit(s[1], b) && IsHexDigit(s[2], c) && IsHexDigit(s[3], d)
  }

  /** Four hexadecimal digits, the highest first. */
  ghost predicate IsUnit(s: string, n: nat) {
    |s| == 4 && exists a: nat, b: nat, c: nat, d: nat :: AreDigits(s, a, b, c, d) && n == a * 0x1000 + b * 0x100 + c * 16 + d
  }

  /** What stands for what after a backslash. */
  predicate Means(e: char, c: char) {
    || (e == c && c in {'"', '\\', '/'})
    || (e == 'b' && c as int == 8) || (e == 't' && c as int == 9) || (e == 'n' && c as int == 10)
    || (e == 'f' && c as int == 12) || (e == 'r' && c as int == 13)
  }

  predicate IsShortEscape(s: string, c: char) {
    |s| == 2 && s[0] == '\\' && Means(s[1], c)
  }

  ghost predicate IsUnicodeEscape(s: string, n: nat) {
    |s| == 6 && s[0] == '\\' && s[1] == 'u' && IsUnit(s[2..], n)
  }

  predicate AreSurrogates(c: char, high: nat, low: nat) {
    && 0xD800 <= high <= 0xDBFF && 0xDC00 <= low <= 0xDFFF
    && c as int == 0x10000 + (high - 0xD800) * 0x400 + (low - 0xDC00)
  }

  /** A character beyond the first plane, as its two surrogates. */
  ghost predicate IsPair(s: string, c: char) {
    |s| == 12 && exists high: nat, low: nat :: AreSurrogates(c, high, low) && IsUnicodeEscape(s[..6], high) && IsUnicodeEscape(s[6..], low)
  }

  /** One character of a string: itself, unless it is a quote, a backslash or below a
      space, or an escape of it. */
  ghost predicate IsCharText(s: string, c: char) {
    || (s == [c] && c >= ' ' && c != '"' && c != '\\')
    || IsShortEscape(s, c) || IsUnicodeEscape(s, c as int) || IsPair(s, c)
  }

  ghost predicate IsChars(s: string, text: string)
    decreases text
  {
    if text == "" then s == ""
    else exists piece, rest :: s == piece + rest && IsCharText(piece, text[0]) && IsChars(rest, text[1..])
  }

  ghost predicate IsString(s: string, text: string) {
    |s| >= 2 && s[0] == '"' && s[|s| - 1] == '"' && IsChars(s[1..|s| - 1], text)
  }

  // ---- Values ----------------------------------------------------------------------

  ghost predicate IsText(s: string, v: Value)
    decreases v, 1
  {
    match v
    case Null => s == "null"
    case Bool(b) => s == if b then "true" else "false"
    case Number(raw) => s == raw && IsNumber(raw)
    case Text(text) => IsString(s, text)
    case Array(items) =>
      && |s| >= 2 && s[0] == '[' && s[|s| - 1] == ']'
      && if items == [] then Blank(s[1..|s| - 1]) else IsItems(s[1..|s| - 1], items)
    case Object(members) =>
      && |s| >= 2 && s[0] == '{' && s[|s| - 1] == '}'
      && if members == [] then Blank(s[1..|s| - 1]) else IsMembers(s[1..|s| - 1], members)
  }

  /** Items with a comma between each two. */
  ghost predicate IsItems(s: string, items: seq<Value>)
    requires items != []
    decreases items, 1
  {
    exists before, text, after, rest :: ItemsParts(s, items, before, text, after, rest)
  }

  ghost predicate ItemsParts(s: string, items: seq<Value>, before: string, text: string, after: string, rest: string)
    requires items != []
    decreases items, 0
  {
    && s == before + (text + (after + rest)) && Blank(before) && Blank(after) && IsText(text, items[0])
    && if |items| == 1 then rest == "" else rest != "" && rest[0] == ',' && IsItems(rest[1..], items[1..])
  }

  /** A name, a colon and a value. */
  ghost predicate IsMember(s: string, m: Member)
    decreases m, 1
  {
    exists name, gap, lead, text :: MemberParts(s, m, name, gap, lead, text)
  }

  ghost predicate MemberParts(s: string, m: Member, name: string, gap: string, lead: string, text: string)
    decreases m, 0
  {
    && s == name + (gap + (":" + (lead + text))) && Blank(gap) && Blank(lead)
    && IsString(name, m.name) && IsText(text, m.value)
  }

  ghost predicate IsMembers(s: string, members: seq<Member>)
    requires members != []
    decreases members, 1
  {
    exists before, text, after, rest :: MembersParts(s, members, before, text, after, rest)
  }

  ghost predicate MembersParts(s: string, members: seq<Member>, before: string, text: string, after: string, rest: string)
    requires members != []
    decreases members, 0
  {
    && s == before + (text + (after + rest)) && Blank(before) && Blank(after) && IsMember(text, members[0])
    && if |members| == 1 then rest == "" else rest != "" && rest[0] == ',' && IsMembers(rest[1..], members[1..])
  }

  // ---- Documents ---------------------------------------------------------------------

  /** A byte order mark at most, one value, and blanks around it. */
  ghost predicate IsDocument(doc: string, v: Value) {
    exists mark, before, text, after :: DocumentParts(doc, v, mark, before, text, after)
  }

  ghost predicate DocumentParts(doc: string, v: Value, mark: string, before: string, text: string, after: string) {
    && doc == mark + (before + (text + after)) && (mark == "" || mark == [0xFEFF as char])
    && Blank(before) && Blank(after) && IsText(text, v)
  }
}
