/** The indented text a tree is written as: plain ASCII strings, two spaces per
    level, numbers as they were. */
module JsonWriting {
  import opened JsonValues

  /** An upper-case hex digit. */
  function HexDigit(n: nat): char
    requires n < 16
  {
    if n < 10 then ('0' as int + n) as char else ('A' as int + n - 10) as char
  }

  /** `\uXXXX` of one UTF-16 unit. */
  function UnitText(unit: nat): string
    requires unit < 0x10000
  {
    ['\\', 'u', HexDigit(unit / 0x1000), HexDigit(unit / 0x100 % 16), HexDigit(unit / 16 % 16), HexDigit(unit % 16)]
  }

  predicate EscapedByChoice(c: char) {
    c in "&'<>+`"
  }

  function CharText(c: char): string {
    if c == '"' then "\\\""
    else if c == '\\' then "\\\\"
    else if c == '\n' then "\\n"
    else if c == '\r' then "\\r"
    else if c == '\t' then "\\t"
    else if c as int == 8 then "\\b"
    else if c as int == 12 then "\\f"
    else if EscapedByChoice(c) then UnitText(c as int)
    else if ' ' <= c <= '~' then [c]
    else if c as int < 0x10000 then UnitText(c as int)
    else
      var v := c as int - 0x10000;
      UnitText(0xD800 + v / 0x400) + UnitText(0xDC00 + v % 0x400)
  }

  function CharsText(text: string): string {
    if text == "" then "" else CharText(text[0]) + CharsText(text[1..])
  }

  function StringText(text: string): string {
    "\"" + CharsText(text) + "\""
  }

  function Pad(level: nat): string {
    if level == 0 then "" else "  " + Pad(level - 1)
  }

  function Separator(more: bool): string {
    if more then ",\n" else "\n"
  }

  function ValueText(v: Value, indent: nat): string
    decreases v, 2
  {
    match v
    case Null => "null"
    case Bool(b) => if b then "true" else "false"
    case Number(raw) => raw
    case Text(text) => StringText(text)
    case Array(items) =>
      if items == [] then "[]" else "[\n" + ItemsText(items, 0, indent) + Pad(indent) + "]"
    case Object(members) =>
      if members == [] then "{}" else "{\n" + MembersText(members, 0, indent) + Pad(indent) + "}"
  }

  /** The lines of the items from the `i`-th on. */
  function ItemsText(items: seq<Value>, i: nat, indent: nat): string
    requires i <= |items|
    decreases items, 1, |items| - i
  {
    if i == |items| then ""
    else
      Pad(indent + 1) + ValueText(items[i], indent + 1) + Separator(i + 1 < |items|)
      + ItemsText(items, i + 1, indent)
  }

  function MembersText(members: seq<Member>, i: nat, indent: nat): string
    requires i <= |members|
    decreases members, 1, |members| - i
  {
    if i == |members| then ""
    else
      Pad(indent + 1) + StringText(members[i].name) + ": " + ValueText(members[i].value, indent + 1)
      + Separator(i + 1 < |members|) + MembersText(members, i + 1, indent)
  }

  // ---- What the text is made of ---------------------------------------------------------

  /** Only these are written as they are: the others are escaped. */
  lemma WrittenAsItself(c: char)
    ensures CharText(c) == [c] <==> 32 <= c as int <= 126 && c !in {'"', '\\', '&', '\'', '<', '>', '+', '`'}
  {
  }

  predicate IsAscii(s: string) {
    forall i | 0 <= i < |s| :: 32 <= s[i] as int <= 126
  }

  lemma UnitIsAscii(unit: nat)
    requires unit < 0x10000
    ensures IsAscii(UnitText(unit))
  {
  }

  lemma CharIsAscii(c: char)
    ensures IsAscii(CharText(c))
  {
    if c as int >= 0x10000 {
      var v := c as int - 0x10000;
      UnitIsAscii(0xD800 + v / 0x400);
      UnitIsAscii(0xDC00 + v % 0x400);
    } else {
      UnitIsAscii(c as int);
    }
  }

  /** A string is written in printable ASCII, whatever is in it. */
  lemma {:induction false} StringIsAscii(text: string)
    ensures IsAscii(CharsText(text)) && IsAscii(StringText(text))
  {
    if text != "" {
      CharIsAscii(text[0]);
      StringIsAscii(text[1..]);
    }
  }
}
