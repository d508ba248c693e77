/** Little-endian records: variable-length integers and padded strings, as they
    are written and read back. */
module Codec {
  import opened Wrappers
  import opened Bytes
  import opened Division

  datatype BitsError =
    | UnexpectedEnd(offset: nat, needed: nat, available: nat)
    | ValueOutOfRange(value: nat)

  const MAX_PACKED := 0x7FFF_FFFF
  const MAX_COMPRESSED := 0x3FFF_FFFF
  const MAX_TEXT := 0xFFFF

  // ---- What is written ----------------------------------------------------------

  datatype Record = Packed(value: Dword) | Compressed(value: Dword) | Text(bytes: seq<Byte>) {
    predicate Fits() {
      match this
      case Packed(v) => v <= MAX_PACKED
      case Compressed(v) => v <= MAX_COMPRESSED
      case Text(t) => |t| <= MAX_TEXT
    }

    /** The number a record that does not fit is refused for. */
    function Size(): nat {
      if Text? then |bytes| else value
    }
  }

  function PackedBytes(v: Dword): seq<Byte>
    requires v <= MAX_PACKED
  {
    if v <= 0x7FFF then PutWord(v) else PutWord(v / 0x1_0000 + 0x8000) + PutWord(v % 0x1_0000)
  }

  function CompressedBytes(v: Dword): seq<Byte>
    requires v <= MAX_COMPRESSED
  {
    if v <= 0x7F then [v]
    else if v <= 0x3FFF then [v / 0x100 + 0x80, v % 0x100]
    else [v / 0x100_0000 + 0xC0, v / 0x1_0000 % 0x100] + PutWord(v % 0x1_0000)
  }

  /** Zeros to the next multiple of 4 of a length prefix and `len` bytes. */
  function Padding(len: nat): nat {
    (4 - (2 + len) % 4) % 4
  }

  function Zeros(n: nat): seq<Byte> {
    seq(n, _ => 0)
  }

  function TextBytes(t: seq<Byte>): seq<Byte>
    requires |t| <= MAX_TEXT
  {
    PutWord(|t|) + t + Zeros(Padding(|t|))
  }

  function Encoded(r: Record): seq<Byte>
    requires r.Fits()
  {
    match r
    case Packed(v) => PackedBytes(v)
    case Compressed(v) => CompressedBytes(v)
    case Text(t) => TextBytes(t)
  }

  class Writer {
    var buf: seq<Byte>

    constructor ()
      ensures buf == []
    {
      buf := [];
    }

    method Append(bytes: seq<Byte>)
      modifies this
      ensures buf == old(buf) + bytes
    {
      buf := buf + bytes;
    }

    method Pad(count: nat)
      modifies this
      ensures buf == old(buf) + Zeros(count)
    {
      buf := buf + seq(count, _ => 0);
    }

    /** Zeros until the length is a multiple of `alignment`. */
    method Align(alignment: nat)
      requires alignment > 0
      modifies this
      ensures |buf| % alignment == 0 && |old(buf)| <= |buf| < |old(buf)| + alignment
      ensures buf == old(buf) + Zeros(|buf| - |old(buf)|)
    {
      var rem := |buf| % alignment;
      if rem != 0 {
        Pad(alignment - rem);
        NextMultiple(|old(buf)|, alignment);
      }
    }

    method PackedDword(value: Dword) returns (r: Result<(), BitsError>)
      modifies this
      ensures r.Ok? <==> Packed(value).Fits()
      ensures buf == if r.Ok? then old(buf) + Encoded(Packed(value)) else old(buf)
      ensures r.Err? ==> r.error == ValueOutOfRange(value)
    {
      if value <= 0x7FFF {
        Append(PutWord(value));
      } else if value <= 0x7FFF_FFFF {
        Append(PutWord(value / 0x1_0000 + 0x8000));
        Append(PutWord(value % 0x1_0000));
      } else {
        return Err(ValueOutOfRange(value));
      }
      r := Ok(());
    }

    method CompressedU32(value: Dword) returns (r: Result<(), BitsError>)
      modifies this
      ensures r.Ok? <==> Compressed(value).Fits()
      ensures buf == if r.Ok? then old(buf) + Encoded(Compressed(value)) else old(buf)
      ensures r.Err? ==> r.error == ValueOutOfRange(value)
    {
      if value <= 0x7F {
        Append([value]);
      } else if value <= 0x3FFF {
        Append([value / 0x100 + 0x80]);
        Append([value % 0x100]);
      } else if value <= 0x3FFF_FFFF {
        Append([value / 0x100_0000 + 0xC0]);
        Append([value / 0x1_0000 % 0x100]);
        Append(PutWord(value % 0x1_0000));
      } else {
        return Err(ValueOutOfRange(value));
      }
      r := Ok(());
    }

    method String16LBytes(text: seq<Byte>) returns (r: Result<(), BitsError>)
      modifies this
      ensures r.Ok? <==> Text(text).Fits()
      ensures buf == if r.Ok? then old(buf) + Encoded(Text(text)) else old(buf)
      ensures r.Err? ==> r.error == ValueOutOfRange(|text|)
    {
      if |text| > 0xFFFF {
        return Err(ValueOutOfRange(|text|));
      }
      Append(PutWord(|text|));
      Append(text);
      Pad((4 - (2 + |text|) % 4) % 4);
      r := Ok(());
    }

    /** One record of any kind. */
    method Write(record: Record) returns (r: Result<(), BitsError>)
      modifies this
      ensures r.Ok? <==> record.Fits()
      ensures buf == if r.Ok? then old(buf) + Encoded(record) else old(buf)
      ensures r.Err? ==> r.error == ValueOutOfRange(record.Size())
    {
      match record
      case Packed(v) => r := PackedDword(v);
      case Compressed(v) => r := CompressedU32(v);
      case Text(t) => r := String16LBytes(t);
    }
  }

  lemma NextMultiple(n: nat, m: nat)
    requires m > 0 && n % m != 0
    ensures (n + (m - n % m)) % m == 0
  {
    var next := n + (m - n % m);
    var q := n / m + 1;
    assert n == m * (n / m) + n % m;
    assert next == m * q;
    QuotientIs(next, m, q, 0);
  }

  // ---- What is read ---------------------------------------------------------------

  /** A read's answer and where it leaves the position. */
  datatype Read<+T> = Read(result: Result<T, BitsError>, pos: nat)

  function Take(data: seq<Byte>, pos: nat, count: nat): (r: Read<seq<Byte>>)
    requires pos <= |data|
    ensures r.pos <= |data|
    ensures r.result.Ok? ==> |r.result.value| == count && r.pos == pos + count
  {
    if pos + count > |data| then Read(Err(UnexpectedEnd(pos, count, |data| - pos)), pos)
    else Read(Ok(data[pos..pos + count]), pos + count)
  }

  function TakeByte(data: seq<Byte>, pos: nat): (r: Read<Byte>)
    requires pos <= |data|
    ensures r.pos <= |data|
  {
    if pos + 1 > |data| then Read(Err(UnexpectedEnd(pos, 1, |data| - pos)), pos) else Read(Ok(data[pos]), pos + 1)
  }

  function TakeWord(data: seq<Byte>, pos: nat): (r: Read<Word>)
    requires pos <= |data|
    ensures r.pos <= |data|
  {
    if pos + 2 > |data| then Read(Err(UnexpectedEnd(pos, 2, |data| - pos)), pos) else Read(Ok(WordAt(data, pos)), pos + 2)
  }

  function ReadPacked(data: seq<Byte>, pos: nat): (r: Read<Dword>)
    requires pos <= |data|
    ensures r.pos <= |data|
  {
    var first := TakeWord(data, pos);
    if first.result.Err? || first.result.value < 0x8000 then first
    else
      var low := TakeWord(data, first.pos);
      if low.result.Err? then low
      else Read(Ok(first.result.value % 0x8000 * 0x1_0000 + low.result.value), low.pos)
  }

  function ReadCompressed(data: seq<Byte>, pos: nat): (r: Read<Dword>)
    requires pos <= |data|
    ensures r.pos <= |data|
  {
    var b0 := TakeByte(data, pos);
    if b0.result.Err? || b0.result.value < 0x80 then b0
    else
      var b1 := TakeByte(data, b0.pos);
      if b1.result.Err? then b1
      else if b0.result.value / 0x40 % 2 == 0 then Read(Ok(b0.result.value % 0x80 * 0x100 + b1.result.value), b1.pos)
      else
        var low := TakeWord(data, b1.pos);
        if low.result.Err? then low
        else Read(Ok((b0.result.value % 0x40 * 0x100 + b1.result.value) * 0x1_0000 + low.result.value), low.pos)
  }

  function ReadText(data: seq<Byte>, pos: nat): (r: Read<seq<Byte>>)
    requires pos <= |data|
    ensures r.pos <= |data|
  {
    var len := TakeWord(data, pos);
    if len.result.Err? then Read(Err(len.result.error), len.pos)
    else
      var text := Take(data, len.pos, len.result.value);
      if text.result.Err? then text
      else
        var skipped := Take(data, text.pos, Padding(len.result.value));
        if skipped.result.Err? then skipped else Read(text.result, skipped.pos)
  }

  datatype Kind = PackedKind | CompressedKind | TextKind

  function KindOf(r: Record): Kind {
    match r
    case Packed(_) => PackedKind
    case Compressed(_) => CompressedKind
    case Text(_) => TextKind
  }

  function ReadRecord(data: seq<Byte>, pos: nat, kind: Kind): (r: Read<Record>)
    requires pos <= |data|
    ensures r.pos <= |data|
  {
    match kind
    case PackedKind =>
      var r := ReadPacked(data, pos);
      Read(if r.result.Ok? then Ok(Packed(r.result.value)) else Err(r.result.error), r.pos)
    case CompressedKind =>
      var r := ReadCompressed(data, pos);
      Read(if r.result.Ok? then Ok(Compressed(r.result.value)) else Err(r.result.error), r.pos)
    case TextKind =>
      var r := ReadText(data, pos);
      Read(if r.result.Ok? then Ok(Text(r.result.value)) else Err(r.result.error), r.pos)
  }

  class Reader {
    const data: seq<Byte>
    var pos: nat

    predicate Valid()
      reads this
    {
      pos <= |data|
    }

    constructor (data: seq<Byte>)
      ensures Valid() && this.data == data && pos == 0
    {
      this.data, pos := data, 0;
    }

    /** A failed read does not move the position. */
    method GetBytes(count: nat) returns (r: Result<seq<Byte>, BitsError>)
      requires Valid()
      modifies this
      ensures Valid() && Read(r, pos) == Take(data, old(pos), count)
    {
      var available := |data| - pos;
      if count > available {
        return Err(UnexpectedEnd(pos, count, available));
      }
      r := Ok(data[pos..pos + count]);
      pos := pos + count;
    }

    method U8() returns (r: Result<Byte, BitsError>)
      requires Valid()
      modifies this
      ensures Valid() && Read(r, pos) == TakeByte(data, old(pos))
    {
      var bytes := GetBytes(1);
      r := if bytes.Err? then Err(bytes.error) else Ok(bytes.value[0]);
    }

    method U16() returns (r: Result<Word, BitsError>)
      requires Valid()
      modifies this
      ensures Valid() && Read(r, pos) == TakeWord(data, old(pos))
    {
      var bytes := GetBytes(2);
      if bytes.Err? {
        return Err(bytes.error);
      }
      r := Ok(WordAt(bytes.value, 0));
    }

    method PackedDword() returns (r: Result<Dword, BitsError>)
      requires Valid()
      modifies this
      ensures Valid() && Read(r, pos) == ReadPacked(data, old(pos))
    {
      var first := U16();
      if first.Err? || first.value < 0x8000 {
        return first;
      }
      var low := U16();
      if low.Err? {
        return low;
      }
      var high: int, rest: int := first.value % 0x8000, low.value;
      r := Ok(high * 0x1_0000 + rest);
    }

    method CompressedU32() returns (r: Result<Dword, BitsError>)
      requires Valid()
      modifies this
      ensures Valid() && Read(r, pos) == ReadCompressed(data, old(pos))
    {
      var b0 := U8();
      if b0.Err? || b0.value < 0x80 {
        return b0;
      }
      var b1 := U8();
      if b1.Err? {
        return b1;
      }
      var first: int, second: int := b0.value, b1.value;
      if first / 0x40 % 2 == 0 {
        return Ok(first % 0x80 * 0x100 + second);
      }
      var low := U16();
      if low.Err? {
        return Err(low.error);
      }
      var rest: int := low.value;
      r := Ok((first % 0x40 * 0x100 + second) * 0x1_0000 + rest);
    }

    method String16LBytes() returns (r: Result<seq<Byte>, BitsError>)
      requires Valid()
      modifies this
      ensures Valid() && Read(r, pos) == ReadText(data, old(pos))
    {
      var len := U16();
      if len.Err? {
        return Err(len.error);
      }
      var text := GetBytes(len.value);
      if text.Err? {
        return text;
      }
      var count: int := len.value;
      var skipped := GetBytes((4 - (2 + count) % 4) % 4);
      if skipped.Err? {
        return skipped;
      }
      r := text;
    }

    /** One record of the kind asked for. */
    method ReadOne(kind: Kind) returns (r: Result<Record, BitsError>)
      requires Valid()
      modifies this
      ensures Valid() && Read(r, pos) == ReadRecord(data, old(pos), kind)
    {
      match kind
      case PackedKind =>
        var v := PackedDword();
        r := if v.Ok? then Ok(Packed(v.value)) else Err(v.error);
      case CompressedKind =>
        var v := CompressedU32();
        r := if v.Ok? then Ok(Compressed(v.value)) else Err(v.error);
      case TextKind =>
        var t := String16LBytes();
        r := if t.Ok? then Ok(Text(t.value)) else Err(t.error);
    }
  }

  // ---- Reading back what was written ----------------------------------------------------

  lemma PackedReadsBack(pre: seq<Byte>, v: Dword, post: seq<Byte>)
    requires v <= MAX_PACKED
    ensures ReadPacked(pre + PackedBytes(v) + post, |pre|) == Read(Ok(v), |pre| + |PackedBytes(v)|)
  {
    if v <= 0x7FFF {
      WordReadsBack(pre, v, post);
    } else {
      var high, low := PutWord(v / 0x1_0000 + 0x8000), PutWord(v % 0x1_0000);
      assert pre + PackedBytes(v) + post == pre + high + (low + post);
      WordReadsBack(pre, v / 0x1_0000 + 0x8000, low + post);
      assert pre + PackedBytes(v) + post == (pre + high) + low + post;
      WordReadsBack(pre + high, v % 0x1_0000, post);
    }
  }

  lemma FourByteParts(v: Dword)
    requires v <= MAX_COMPRESSED
    ensures
      var b0 := v / 0x100_0000 + 0xC0;
      && b0 < 0x100 && b0 / 0x40 % 2 == 1
      && (b0 % 0x40 * 0x100 + v / 0x1_0000 % 0x100) * 0x1_0000 + v % 0x1_0000 == v
  {
  }

  lemma FourBytesReadBack(pre: seq<Byte>, v: Dword, post: seq<Byte>)
    requires 0x3FFF < v <= MAX_COMPRESSED
    ensures ReadCompressed(pre + CompressedBytes(v) + post, |pre|) == Read(Ok(v), |pre| + 4)
  {
    FourByteParts(v);
    var head: seq<Byte> := [v / 0x100_0000 + 0xC0, v / 0x1_0000 % 0x100];
    var b := pre + CompressedBytes(v) + post;
    assert b == (pre + head) + PutWord(v % 0x1_0000) + post;
    WordReadsBack(pre + head, v % 0x1_0000, post);
    assert b[|pre|] == head[0] && b[|pre| + 1] == head[1];
  }

  lemma CompressedReadsBack(pre: seq<Byte>, v: Dword, post: seq<Byte>)
    requires v <= MAX_COMPRESSED
    ensures ReadCompressed(pre + CompressedBytes(v) + post, |pre|) == Read(Ok(v), |pre| + |CompressedBytes(v)|)
  {
    if v > 0x3FFF {
      FourBytesReadBack(pre, v, post);
    } else {
      var b := pre + CompressedBytes(v) + post;
      assert b[|pre|] == CompressedBytes(v)[0];
      assert v > 0x7F ==> b[|pre| + 1] == CompressedBytes(v)[1];
    }
  }

  lemma TextReadsBack(pre: seq<Byte>, t: seq<Byte>, post: seq<Byte>)
    requires |t| <= MAX_TEXT
    ensures ReadText(pre + TextBytes(t) + post, |pre|) == Read(Ok(t), |pre| + |TextBytes(t)|)
    ensures |TextBytes(t)| % 4 == 0
  {
    var len, zeros := PutWord(|t|), Zeros(Padding(|t|));
    var b := pre + TextBytes(t) + post;
    assert b == pre + len + (t + zeros + post);
    WordReadsBack(pre, |t|, t + zeros + post);
    assert b[|pre| + 2..|pre| + 2 + |t|] == t;
  }

  lemma RecordReadsBack(pre: seq<Byte>, r: Record, post: seq<Byte>)
    requires r.Fits()
    ensures ReadRecord(pre + Encoded(r) + post, |pre|, KindOf(r)) == Read(Ok(r), |pre| + |Encoded(r)|)
  {
    match r
    case Packed(v) => PackedReadsBack(pre, v, post);
    case Compressed(v) => CompressedReadsBack(pre, v, post);
    case Text(t) => TextReadsBack(pre, t, post);
  }

  function AllEncoded(rs: seq<Record>): seq<Byte>
    requires forall r | r in rs :: r.Fits()
  {
    if rs == [] then [] else Encoded(rs[0]) + AllEncoded(rs[1..])
  }

  /** Records of the given kinds, read one after another. */
  function ReadAll(data: seq<Byte>, pos: nat, kinds: seq<Kind>): Read<seq<Record>>
    requires pos <= |data|
    decreases |kinds|
  {
    if kinds == [] then Read(Ok([]), pos)
    else
      var first := ReadRecord(data, pos, kinds[0]);
      if first.result.Err? then Read(Err(first.result.error), first.pos)
      else
        var rest := ReadAll(data, first.pos, kinds[1..]);
        Read(if rest.result.Err? then rest.result else Ok([first.result.value] + rest.result.value), rest.pos)
  }

  function Kinds(rs: seq<Record>): seq<Kind> {
    seq(|rs|, i requires 0 <= i < |rs| => KindOf(rs[i]))
  }

  lemma ReadAllStep(data: seq<Byte>, pos: nat, kinds: seq<Kind>, r: Record, next: nat, rest: seq<Record>, end: nat)
    requires pos <= |data| && kinds != [] && next <= |data|
    requires ReadRecord(data, pos, kinds[0]) == Read(Ok(r), next)
    requires ReadAll(data, next, kinds[1..]) == Read(Ok(rest), end)
    ensures ReadAll(data, pos, kinds) == Read(Ok([r] + rest), end)
  {
  }

  lemma Regroup(a: seq<Byte>, b: seq<Byte>, c: seq<Byte>, d: seq<Byte>)
    ensures a + (b + c) + d == a + b + (c + d)
    ensures a + (b + c) + d == (a + b) + c + d
  {
  }

  /** Any records that fit, written one after another, read back as the same
      records, from exactly the bytes written, whatever stands around them. */
  lemma {:induction false} AllReadBack(pre: seq<Byte>, rs: seq<Record>, post: seq<Byte>)
    requires forall r | r in rs :: r.Fits()
    ensures ReadAll(pre + AllEncoded(rs) + post, |pre|, Kinds(rs)) == Read(Ok(rs), |pre| + |AllEncoded(rs)|)
    decreases |rs|
  {
    if rs != [] {
      var head, tail := Encoded(rs[0]), AllEncoded(rs[1..]);
      Regroup(pre, head, tail, post);
      RecordReadsBack(pre, rs[0], tail + post);
      AllReadBack(pre + head, rs[1..], post);
      assert Kinds(rs)[1..] == Kinds(rs[1..]);
      assert [rs[0]] + rs[1..] == rs;
      ReadAllStep(pre + (head + tail) + post, |pre|, Kinds(rs), rs[0], |pre + head|, rs[1..], |pre + head| + |tail|);
    }
  }

  // ---- Exactly what is read ----------------------------------------------------------------

  /** Two bytes, the lower first. */
  predicate IsWord(data: seq<Byte>, at: nat, v: int) {
    at + 2 <= |data| && var low: int, high: int := data[at], data[at + 1]; v == low + 256 * high
  }

  /** The bytes from `pos` to `next` are a packed integer. */
  predicate IsPacked(data: seq<Byte>, pos: nat, v: Dword, next: nat) {
    || (next == pos + 2 && v < 0x8000 && IsWord(data, pos, v))
    || (next == pos + 4 && v < 0x8000_0000 && IsWord(data, pos, 0x8000 + v / 0x1_0000) && IsWord(data, pos + 2, v % 0x1_0000))
  }

  /** And a compressed one: the first two bits say how many bytes it takes. */
  predicate IsCompressed(data: seq<Byte>, pos: nat, v: Dword, next: nat) {
    && pos < next <= |data|
    && (|| (next == pos + 1 && v < 0x80 && data[pos] == v)
        || (next == pos + 2 && v < 0x4000 && data[pos] == 0x80 + v / 0x100 && data[pos + 1] == v % 0x100)
        || (next == pos + 4 && v < 0x4000_0000 && data[pos] == 0xC0 + v / 0x100_0000
            && data[pos + 1] == v / 0x1_0000 % 0x100 && IsWord(data, pos + 2, v % 0x1_0000)))
  }

  /** The length, the text and the fewest bytes that make the record a multiple of 4. */
  predicate IsText(data: seq<Byte>, pos: nat, t: seq<Byte>, next: nat) {
    && next <= |data| && IsWord(data, pos, |t|) && pos + 2 + |t| <= next < pos + 2 + |t| + 4 && (next - pos) % 4 == 0
    && data[pos + 2..pos + 2 + |t|] == t
  }

  lemma WordIs(data: seq<Byte>, at: nat)
    requires at + 2 <= |data|
    ensures forall v :: IsWord(data, at, v) <==> v == WordAt(data, at)
  {
  }

  lemma HighAndLow(high: nat, low: nat, v: nat)
    requires low < 0x1_0000
    ensures v == high * 0x1_0000 + low <==> v / 0x1_0000 == high && v % 0x1_0000 == low
  {
  }

  /** Whatever the bytes, an integer is read exactly where it stands. */
  lemma ReadsExactlyPacked(data: seq<Byte>, pos: nat, v: Dword, next: nat)
    requires pos <= |data|
    ensures ReadPacked(data, pos) == Read(Ok(v), next) <==> IsPacked(data, pos, v, next)
  {
    if pos + 2 <= |data| {
      WordIs(data, pos);
      if pos + 4 <= |data| {
        WordIs(data, pos + 2);
        HighAndLow(WordAt(data, pos) % 0x8000, WordAt(data, pos + 2), v);
      }
    }
  }

  lemma BytesOf(a: nat, b: nat, v: nat)
    requires b < 0x100
    ensures v == a * 0x100 + b <==> v / 0x100 == a && v % 0x100 == b
  {
  }

  lemma TwoBytes(first: nat, second: nat, v: nat)
    requires 0x80 <= first < 0xC0 && second < 0x100
    ensures v == first % 0x80 * 0x100 + second <==> v < 0x4000 && first == 0x80 + v / 0x100 && second == v % 0x100
  {
    BytesOf(first % 0x80, second, v);
  }

  lemma FourBytes(first: nat, second: nat, low: nat, v: nat)
    requires 0xC0 <= first < 0x100 && second < 0x100 && low < 0x1_0000
    ensures v == (first % 0x40 * 0x100 + second) * 0x1_0000 + low <==>
      v < 0x4000_0000 && first == 0xC0 + v / 0x100_0000 && second == v / 0x1_0000 % 0x100 && low == v % 0x1_0000
  {
    HighAndLow(first % 0x40 * 0x100 + second, low, v);
    BytesOf(first % 0x40, second, v / 0x1_0000);
    assert v / 0x100_0000 == v / 0x1_0000 / 0x100;
  }

  /** The form of what is read is told by its first two bits. */
  lemma SecondBit(b: nat)
    requires 0x80 <= b < 0x100
    ensures b / 0x40 % 2 == 0 <==> b < 0xC0
  {
  }

  lemma ReadsExactlyCompressed(data: seq<Byte>, pos: nat, v: Dword, next: nat)
    requires pos <= |data|
    ensures ReadCompressed(data, pos) == Read(Ok(v), next) <==> IsCompressed(data, pos, v, next)
  {
    if pos + 2 <= |data| && data[pos] >= 0x80 {
      var first: int, second: int := data[pos], data[pos + 1];
      SecondBit(first);
      if first < 0xC0 {
        TwoBytes(first, second, v);
      } else if pos + 4 <= |data| {
        WordIs(data, pos + 2);
        FourBytes(first, second, WordAt(data, pos + 2), v);
      }
    }
  }

  lemma LeastPadding(len: nat, n: nat)
    ensures Padding(len) == n <==> n < 4 && (2 + len + n) % 4 == 0
  {
  }

  lemma ReadsExactlyText(data: seq<Byte>, pos: nat, t: seq<Byte>, next: nat)
    requires pos <= |data|
    ensures ReadText(data, pos) == Read(Ok(t), next) <==> IsText(data, pos, t, next)
  {
    if pos + 2 <= |data| {
      WordIs(data, pos);
      var len := WordAt(data, pos);
      LeastPadding(len, Padding(len));
      if next >= pos + 2 + len {
        LeastPadding(len, next - pos - 2 - len);
      }
    }
  }

  lemma PackedFits(data: seq<Byte>, pos: nat)
    requires pos <= |data| && ReadPacked(data, pos).result.Ok?
    ensures var r := ReadPacked(data, pos); r.result.value <= MAX_PACKED && |PackedBytes(r.result.value)| <= r.pos - pos
  {
    var r := ReadPacked(data, pos);
    ReadsExactlyPacked(data, pos, r.result.value, r.pos);
  }

  lemma CompressedFits(data: seq<Byte>, pos: nat)
    requires pos <= |data| && ReadCompressed(data, pos).result.Ok?
    ensures
      var r := ReadCompressed(data, pos);
      r.result.value <= MAX_COMPRESSED && |CompressedBytes(r.result.value)| <= r.pos - pos
  {
    var r := ReadCompressed(data, pos);
    ReadsExactlyCompressed(data, pos, r.result.value, r.pos);
  }

  /** Whatever integer is read is one that can be written, and writing it takes no
      more bytes than it was read from. */
  lemma ReadIntegersFit(data: seq<Byte>, pos: nat)
    requires pos <= |data|
    ensures
      var r := ReadPacked(data, pos);
      r.result.Ok? ==> r.result.value <= MAX_PACKED && |PackedBytes(r.result.value)| <= r.pos - pos
    ensures
      var r := ReadCompressed(data, pos);
      r.result.Ok? ==> r.result.value <= MAX_COMPRESSED && |CompressedBytes(r.result.value)| <= r.pos - pos
  {
    if ReadPacked(data, pos).result.Ok? {
      PackedFits(data, pos);
    }
    if ReadCompressed(data, pos).result.Ok? {
      CompressedFits(data, pos);
    }
  }
}
