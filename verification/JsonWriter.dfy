/** The two writers as they run, appending to a buffer: the host's own, and the
    launcher's, which lays its files out the same way. */
module JsonWriter {
  import opened Wrappers
  import opened Numerals
  import opened JsonValues
  import opened JsonReading
  import opened JsonWriting
  import opened JsonRoundTrip

  lemma Regroup(a: string, b: string, c: string)
    ensures (a + b) + c == a + (b + c)
  {
  }

  class Buffer {
    var out: string

    constructor ()
      ensures out == ""
    {
      out := "";
    }

    method Append(s: string)
      modifies this
      ensures out == old(out) + s
    {
      out := out + s;
    }

    method WriteString(text: string)
      modifies this
      ensures out == old(out) + StringText(text)
    {
      Append("\"");
      ghost var start := out;
      for i := 0 to |text|
        invariant out + CharsText(text[i..]) == start + CharsText(text)
      {
        assert text[i..][1..] == text[i + 1..];
        Regroup(out, CharText(text[i]), CharsText(text[i + 1..]));
        Append(CharText(text[i]));
      }
      assert out + CharsText(text[|text|..]) == out;
      Append("\"");
      Regroup(old(out), "\"", CharsText(text));
      Regroup(old(out), "\"" + CharsText(text), "\"");
    }

    method WritePad(level: nat)
      modifies this
      ensures out == old(out) + Pad(level)
    {
      for i := 0 to level
        invariant out + Pad(level - i) == old(out) + Pad(level)
      {
        Regroup(out, "  ", Pad(level - i - 1));
        Append("  ");
      }
      assert out + Pad(0) == out;
    }

    method WriteValue(v: Value, indent: nat)
      modifies this
      ensures out == old(out) + ValueText(v, indent)
      decreases v, 2
    {
      match v
      case Null => Append("null");
      case Bool(b) => Append(if b then "true" else "false");
      case Number(raw) => Append(raw);
      case Text(text) => WriteString(text);
      case Array(items) =>
        if items == [] {
          Append("[]");
        } else {
          WriteItems(items, indent);
        }
      case Object(members) =>
        if members == [] {
          Append("{}");
        } else {
          WriteMembers(members, indent);
        }
    }

    method WriteItem(item: Value, more: bool, indent: nat)
      modifies this
      ensures out == old(out) + (Pad(indent + 1) + ValueText(item, indent + 1) + Separator(more))
      decreases item, 3
    {
      WritePad(indent + 1);
      WriteValue(item, indent + 1);
      Regroup(old(out), Pad(indent + 1), ValueText(item, indent + 1));
      Append(if more then ",\n" else "\n");
      Regroup(old(out), Pad(indent + 1) + ValueText(item, indent + 1), Separator(more));
    }

    method WriteItems(items: seq<Value>, indent: nat)
      requires items != []
      modifies this
      ensures out == old(out) + ValueText(Array(items), indent)
      decreases items, 1
    {
      Append("[\n");
      ghost var start := out;
      for i := 0 to |items|
        invariant out + ItemsText(items, i, indent) == start + ItemsText(items, 0, indent)
      {
        var more := i + 1 < |items|;
        Regroup(out, Pad(indent + 1) + ValueText(items[i], indent + 1) + Separator(more), ItemsText(items, i + 1, indent));
        WriteItem(items[i], more, indent);
      }
      assert out + ItemsText(items, |items|, indent) == out;
      WritePad(indent);
      Append("]");
      Regroup(old(out), "[\n", ItemsText(items, 0, indent));
      Regroup(old(out), "[\n" + ItemsText(items, 0, indent), Pad(indent));
      Regroup(old(out), "[\n" + ItemsText(items, 0, indent) + Pad(indent), "]");
    }

    /** A member's name, the colon and its value, on a line of its own. */
    method WriteNamed(name: string, indent: nat)
      modifies this
      ensures out == old(out) + (Pad(indent + 1) + StringText(name) + ": ")
    {
      WritePad(indent + 1);
      WriteString(name);
      Regroup(old(out), Pad(indent + 1), StringText(name));
      Append(": ");
      Regroup(old(out), Pad(indent + 1) + StringText(name), ": ");
    }

    method WriteMember(member: Member, more: bool, indent: nat)
      modifies this
      ensures out == old(out)
        + (Pad(indent + 1) + StringText(member.name) + ": " + ValueText(member.value, indent + 1) + Separator(more))
      decreases member, 3
    {
      ghost var named := Pad(indent + 1) + StringText(member.name) + ": ";
      WriteNamed(member.name, indent);
      WriteValue(member.value, indent + 1);
      Regroup(old(out), named, ValueText(member.value, indent + 1));
      Append(if more then ",\n" else "\n");
      Regroup(old(out), named + ValueText(member.value, indent + 1), Separator(more));
    }

    method WriteMembers(members: seq<Member>, indent: nat)
      requires members != []
      modifies this
      ensures out == old(out) + ValueText(Object(members), indent)
      decreases members, 1
    {
      Append("{\n");
      ghost var start := out;
      for i := 0 to |members|
        invariant out + MembersText(members, i, indent) == start + MembersText(members, 0, indent)
      {
        var more := i + 1 < |members|;
        Regroup(out,
          Pad(indent + 1) + StringText(members[i].name) + ": " + ValueText(members[i].value, indent + 1) + Separator(more),
          MembersText(members, i + 1, indent));
        WriteMember(members[i], more, indent);
      }
      assert out + MembersText(members, |members|, indent) == out;
      WritePad(indent);
      Append("}");
      Regroup(old(out), "{\n", MembersText(members, 0, indent));
      Regroup(old(out), "{\n" + MembersText(members, 0, indent), Pad(indent));
      Regroup(old(out), "{\n" + MembersText(members, 0, indent) + Pad(indent), "}");
    }
  }

  // ---- The launcher's files --------------------------------------------------------

  datatype Out =
    | OutNull
    | OutBool(b: bool)
    | OutInt(n: int)
    | OutStr(text: string)
    | OutArray(items: seq<Out>)
    | OutObject(members: seq<OutMember>)

  datatype OutMember = OutMember(name: string, value: Out)

  /** The tree a launcher value stands for. */
  function Meant(v: Out): Value
    decreases v
  {
    match v
    case OutNull => Null
    case OutBool(b) => Bool(b)
    case OutInt(n) => Number(IntText(n))
    case OutStr(text) => Text(text)
    case OutArray(items) => Array(seq(|items|, i requires 0 <= i < |items| => Meant(items[i])))
    case OutObject(members) =>
      Object(seq(|members|, i requires 0 <= i < |members| => Member(members[i].name, Meant(members[i].value))))
  }

  /** The number a signed integer's text denotes. */
  function IntValue(s: string): int
    requires s != "" && (AllDigits(s) || (s[0] == '-' && |s| > 1 && AllDigits(s[1..])))
  {
    if s[0] == '-' then 0 - NatValue(s[1..]) else NatValue(s)
  }

  lemma IntIsNumber(n: int)
    ensures IsNumber(IntText(n))
  {
    var abs := if n < 0 then -n else n;
    var parts := NumberParts(n < 0, Decimal(abs), "", "");
    assert parts.Valid();
    assert parts.Written() == IntText(n);
  }

  /** An integer's text is a JSON number that reads back as itself. */
  lemma IntReadsBack(n: int)
    ensures var s := IntText(n); s != "" && (AllDigits(s) || (s[0] == '-' && |s| > 1 && AllDigits(s[1..])))
    ensures IntValue(IntText(n)) == n
  {
    if n < 0 {
      DecimalReadsBack(-n);
      assert IntText(n)[1..] == Decimal(-n);
    } else {
      DecimalReadsBack(n);
      assert IsDigit(Decimal(n)[0]);
    }
  }

  predicate OutDistinct(v: Out)
    decreases v
  {
    match v
    case OutArray(items) => forall i | 0 <= i < |items| :: OutDistinct(items[i])
    case OutObject(members) =>
      && (forall i, j | 0 <= i < j < |members| :: members[i].name != members[j].name)
      && forall i | 0 <= i < |members| :: OutDistinct(members[i].value)
    case _ => true
  }

  lemma {:induction false} MeantIsSound(v: Out)
    requires OutDistinct(v)
    ensures Sound(Meant(v))
    decreases v
  {
    match v
    case OutInt(n) => IntIsNumber(n);
    case OutArray(items) =>
      forall i | 0 <= i < |items| ensures Sound(Meant(items[i])) {
        MeantIsSound(items[i]);
      }
    case OutObject(members) =>
      forall i | 0 <= i < |members| ensures Sound(Meant(members[i].value)) {
        MeantIsSound(members[i].value);
      }
    case _ =>
  }

  /** What the host's reader makes of a launcher's file. */
  lemma LauncherFileReadsBack(v: Out, indent: nat)
    requires OutDistinct(v)
    ensures Parse(ValueText(Meant(v), indent))
      == if Depth(Meant(v)) <= MAX_DEPTH then Ok(Meant(v)) else Err(TooDeep)
  {
    MeantIsSound(v);
    DocumentReadsBack(Meant(v), indent);
  }

  /** What both writers put between the brackets of a filled array or object. */
  lemma ArrayFrame(start: string, items: seq<Value>, level: nat)
    requires items != []
    ensures start + "[" + "\n" + ItemsText(items, 0, level) + Pad(level) + "]" == start + ValueText(Array(items), level)
  {
    Regroup(start, "[", "\n");
    assert "[" + "\n" == "[\n";
    Regroup(start, "[\n", ItemsText(items, 0, level));
    Regroup(start, "[\n" + ItemsText(items, 0, level), Pad(level));
    Regroup(start, "[\n" + ItemsText(items, 0, level) + Pad(level), "]");
  }

  lemma ObjectFrame(start: string, members: seq<Member>, level: nat)
    requires members != []
    ensures start + "{" + "\n" + MembersText(members, 0, level) + Pad(level) + "}" == start + ValueText(Object(members), level)
  {
    Regroup(start, "{", "\n");
    assert "{" + "\n" == "{\n";
    Regroup(start, "{\n", MembersText(members, 0, level));
    Regroup(start, "{\n" + MembersText(members, 0, level), Pad(level));
    Regroup(start, "{\n" + MembersText(members, 0, level) + Pad(level), "}");
  }

  /** The launcher's writer. The comma goes before the next item, not after the
      last one. */
  method WriteOut(buffer: Buffer, v: Out, level: nat)
    modifies buffer
    ensures buffer.out == old(buffer.out) + ValueText(Meant(v), level)
    decreases v, 2
  {
    match v
    case OutNull => buffer.Append("null");
    case OutBool(b) => buffer.Append(if b then "true" else "false");
    case OutInt(n) => buffer.Append(IntText(n));
    case OutStr(text) => buffer.WriteString(text);
    case OutArray(items) =>
      if items == [] {
        buffer.Append("[]");
      } else {
        WriteOutItems(buffer, items, Meant(v).items, level);
      }
    case OutObject(members) =>
      if members == [] {
        buffer.Append("{}");
      } else {
        WriteOutMembers(buffer, members, Meant(v).members, level);
      }
  }

  method StartLine(buffer: Buffer, first: bool)
    modifies buffer
    ensures buffer.out == old(buffer.out) + (if first then "\n" else ",\n")
  {
    if !first {
      buffer.Append(",");
      Regroup(old(buffer.out), ",", "\n");
      assert "," + "\n" == ",\n";
    }
    buffer.Append("\n");
  }

  method WriteOutItems(buffer: Buffer, items: seq<Out>, ghost all: seq<Value>, level: nat)
    requires items != [] && |all| == |items|
    requires forall i | 0 <= i < |items| :: all[i] == Meant(items[i])
    modifies buffer
    ensures buffer.out == old(buffer.out) + ValueText(Array(all), level)
    decreases items, 1
  {
    buffer.Append("[");
    ghost var start := buffer.out + "\n";
    for i := 0 to |items|
      invariant buffer.out + Separator(0 < i < |items|) + ItemsText(all, i, level) == start + ItemsText(all, 0, level)
    {
      StartLine(buffer, i == 0);
      ghost var before, comma := buffer.out, Separator(i + 1 < |all|);
      ghost var line := Pad(level + 1) + ValueText(all[i], level + 1);
      buffer.WritePad(level + 1);
      WriteOut(buffer, items[i], level + 1);
      Regroup(before, Pad(level + 1), ValueText(all[i], level + 1));
      Regroup(before, line, comma);
      Regroup(before, line + comma, ItemsText(all, i + 1, level));
    }
    buffer.Append("\n");
    assert buffer.out + ItemsText(all, |items|, level) == buffer.out;
    buffer.WritePad(level);
    buffer.Append("]");
    ArrayFrame(old(buffer.out), all, level);
  }

  method WriteOutMembers(buffer: Buffer, members: seq<OutMember>, ghost all: seq<Member>, level: nat)
    requires members != [] && |all| == |members|
    requires forall i | 0 <= i < |members| :: all[i] == Member(members[i].name, Meant(members[i].value))
    modifies buffer
    ensures buffer.out == old(buffer.out) + ValueText(Object(all), level)
    decreases members, 1
  {
    buffer.Append("{");
    ghost var start := buffer.out + "\n";
    for i := 0 to |members|
      invariant buffer.out + Separator(0 < i < |members|) + MembersText(all, i, level) == start + MembersText(all, 0, level)
    {
      StartLine(buffer, i == 0);
      ghost var before, comma := buffer.out, Separator(i + 1 < |all|);
      ghost var named := Pad(level + 1) + StringText(all[i].name) + ": ";
      ghost var line := named + ValueText(all[i].value, level + 1);
      buffer.WriteNamed(members[i].name, level);
      WriteOut(buffer, members[i].value, level + 1);
      Regroup(before, named, ValueText(all[i].value, level + 1));
      Regroup(before, line, comma);
      Regroup(before, line + comma, MembersText(all, i + 1, level));
    }
    buffer.Append("\n");
    assert buffer.out + MembersText(all, |members|, level) == buffer.out;
    buffer.WritePad(level);
    buffer.Append("}");
    ObjectFrame(old(buffer.out), all, level);
  }
}
