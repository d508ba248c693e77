/** CRC-32, RFC 2083 section 3.4: a lookup table does the work of dividing a
    message by a polynomial one bit at a time. A 32-bit word is its bits, the
    lowest first. */
module PngCrc {
  import opened Bytes

  function BitsOf(n: nat, width: nat): (s: seq<bool>)
    ensures |s| == width
  {
    if width == 0 then [] else [n % 2 == 1] + BitsOf(n / 2, width - 1)
  }

  function ValueOf(s: seq<bool>): nat {
    if s == [] then 0 else (if s[0] then 1 else 0) + 2 * ValueOf(s[1..])
  }

  function Clear(n: nat): (s: seq<bool>)
    ensures |s| == n
  {
    seq(n, _ => false)
  }

  type Register = s: seq<bool> | |s| == 32 witness Clear(32)

  function Power2(n: nat): (p: nat)
    ensures p > 0
  {
    if n == 0 then 1 else 2 * Power2(n - 1)
  }

  /** 0xEDB88320, the lowest bit first. */
  const POLYNOMIAL: Register := [
    false, false, false, false, false, true, false, false, true, true, false, false, false, false, false, true,
    false, false, false, true, true, true, false, true, true, false, true, true, false, true, true, true]

  function Set(n: nat): (s: seq<bool>)
    ensures |s| == n
  {
    seq(n, _ => true)
  }

  /** 0xFFFFFFFF. */
  const ONES: Register := Set(32)

  function Xor(a: seq<bool>, b: seq<bool>): (r: seq<bool>)
    requires |a| == |b|
    ensures |r| == |a|
  {
    seq(|a|, i requires 0 <= i < |a| => a[i] != b[i])
  }

  /** `c >> n`. */
  function Down(c: Register, n: nat): Register
    requires n <= 32
  {
    c[n..] + Clear(n)
  }

  // ---- Division -----------------------------------------------------------------

  function Halve(c: Register): Register {
    if c[0] then Xor(POLYNOMIAL, Down(c, 1)) else Down(c, 1)
  }

  function Shifted(c: Register, n: nat): Register
    decreases n
  {
    if n == 0 then c else Shifted(Halve(c), n - 1)
  }

  /** One bit of the message divided in. */
  function DivideBit(c: Register, bit: bool): Register {
    if c[0] != bit then Xor(POLYNOMIAL, Down(c, 1)) else Down(c, 1)
  }

  function DivideBits(c: Register, bits: seq<bool>): Register
    decreases |bits|
  {
    if bits == [] then c else DivideBits(DivideBit(c, bits[0]), bits[1..])
  }

  /** The bits of a message, each byte's lowest first. */
  function MessageBits(data: seq<Byte>): seq<bool> {
    if data == [] then [] else BitsOf(data[0], 8) + MessageBits(data[1..])
  }

  /** The definition: divide the whole message, bit by bit. */
  function Crc(data: seq<Byte>): Register {
    Xor(DivideBits(ONES, MessageBits(data)), ONES)
  }

  // ---- A byte at a time ----------------------------------------------------------

  lemma HalveSplits(x: Register, y: Register)
    ensures Halve(Xor(x, y)) == Xor(Halve(x), Halve(y))
  {
    var a, b := Halve(Xor(x, y)), Xor(Halve(x), Halve(y));
    forall i | 0 <= i < 32 ensures a[i] == b[i] {
    }
  }

  lemma {:induction false} ShiftedSplits(x: Register, y: Register, n: nat)
    ensures Shifted(Xor(x, y), n) == Xor(Shifted(x, n), Shifted(y, n))
    decreases n
  {
    if n > 0 {
      HalveSplits(x, y);
      ShiftedSplits(Halve(x), Halve(y), n - 1);
    }
  }

  /** Bits standing at the low end of a register. */
  function Wide(bits: seq<bool>): Register
    requires |bits| <= 32
  {
    bits + Clear(32 - |bits|)
  }

  lemma FirstBitShifts(c: Register, bits: seq<bool>)
    requires bits != [] && |bits| <= 32
    ensures Halve(Xor(c, Wide(bits))) == Xor(DivideBit(c, bits[0]), Wide(bits[1..]))
  {
    var a, b := Halve(Xor(c, Wide(bits))), Xor(DivideBit(c, bits[0]), Wide(bits[1..]));
    forall i | 0 <= i < 32 ensures a[i] == b[i] {
    }
  }

  /** Dividing bits in one at a time is shifting them in together. */
  lemma {:induction false} BitsShiftTogether(c: Register, bits: seq<bool>)
    requires |bits| <= 32
    ensures DivideBits(c, bits) == Shifted(Xor(c, Wide(bits)), |bits|)
    decreases |bits|
  {
    if bits == [] {
      assert Xor(c, Wide(bits)) == c;
    } else {
      BitsShiftTogether(DivideBit(c, bits[0]), bits[1..]);
      FirstBitShifts(c, bits);
    }
  }

  /** Steps on a register whose low bits are clear only shift it. */
  lemma ClearBitsShift(rest: seq<bool>, n: nat)
    requires |rest| + n == 32
    ensures Shifted(Clear(n) + rest, n) == rest + Clear(n)
  {
    ClearBitsMove(rest, n, 0);
    assert Clear(n) + rest + Clear(0) == Clear(n) + rest;
    assert Clear(n + 0) == Clear(n);
  }

  lemma {:induction false} ClearBitsMove(rest: seq<bool>, n: nat, done: nat)
    requires |rest| + n + done == 32
    ensures Shifted(Clear(n) + rest + Clear(done), n) == rest + Clear(n + done)
  {
    var c := Clear(n) + rest + Clear(done);
    if n == 0 {
      assert c == rest + Clear(done);
    } else {
      assert Halve(c) == Clear(n - 1) + rest + Clear(done + 1);
      ClearBitsMove(rest, n - 1, done + 1);
    }
  }

  lemma {:induction false} ZeroBits(width: nat)
    ensures BitsOf(0, width) == Clear(width)
  {
    if width > 0 {
      ZeroBits(width - 1);
    }
  }

  lemma {:induction false} ValueReadsBack(s: seq<bool>, more: nat)
    ensures BitsOf(ValueOf(s), |s| + more) == s + Clear(more)
  {
    if s == [] {
      ZeroBits(more);
    } else {
      ValueReadsBack(s[1..], more);
      var n := ValueOf(s);
      assert n % 2 == (if s[0] then 1 else 0) && n / 2 == ValueOf(s[1..]);
    }
  }

  lemma ByteValue(s: seq<bool>)
    requires |s| == 8
    ensures ValueOf(s) < 256
  {
    ValueBound(s, 8);
  }

  lemma {:induction false} ValueBound(s: seq<bool>, n: nat)
    requires |s| == n
    ensures ValueOf(s) < Power2(n)
  {
    if n > 0 {
      ValueBound(s[1..], n - 1);
    }
  }

  /** One lookup does the work of eight divisions. */
  lemma LookupDividesByte(c: Register, b: Byte)
    ensures
      var index := ValueOf(Xor(c, BitsOf(b, 32))[..8]);
      index < 256 && DivideBits(c, BitsOf(b, 8)) == Xor(Shifted(BitsOf(index, 32), 8), Down(c, 8))
  {
    var v := Xor(c, Wide(BitsOf(b, 8)));
    WideByte(b);
    BitsShiftTogether(c, BitsOf(b, 8));
    var low: Register, high: Register := v[..8] + Clear(24), Clear(8) + v[8..];
    assert v == Xor(low, high);
    ShiftedSplits(low, high, 8);
    ClearBitsShift(v[8..], 8);
    assert v[8..] == c[8..];
    ValueReadsBack(v[..8], 24);
    ByteValue(v[..8]);
  }

  lemma {:induction false} BitsOfSmall(n: nat, width: nat, more: nat)
    requires n < Power2(width)
    ensures BitsOf(n, width + more) == BitsOf(n, width) + Clear(more)
  {
    if width == 0 {
      ZeroBits(more);
    } else {
      BitsOfSmall(n / 2, width - 1, more);
    }
  }

  lemma WideByte(b: Byte)
    ensures BitsOf(b, 32) == Wide(BitsOf(b, 8))
  {
    assert Power2(8) == 2 * Power2(7) == 4 * Power2(6) == 8 * Power2(5) == 16 * Power2(4);
    assert Power2(4) == 2 * Power2(3) == 4 * Power2(2) == 8 * Power2(1) == 16;
    BitsOfSmall(b, 8, 24);
  }

  lemma {:induction false} DivideInParts(c: Register, a: seq<bool>, b: seq<bool>)
    ensures DivideBits(c, a + b) == DivideBits(DivideBits(c, a), b)
    decreases |a|
  {
    if a == [] {
      assert a + b == b;
    } else {
      assert (a + b)[1..] == a[1..] + b;
      DivideInParts(DivideBit(c, a[0]), a[1..], b);
    }
  }

  lemma {:induction false} MessageInParts(a: seq<Byte>, b: seq<Byte>)
    ensures MessageBits(a + b) == MessageBits(a) + MessageBits(b)
  {
    if a == [] {
      assert a + b == b;
    } else {
      assert (a + b)[1..] == a[1..] + b;
      MessageInParts(a[1..], b);
    }
  }

  /** Eight steps from a byte alone. */
  method TableEntry(n: nat) returns (c: Register)
    ensures c == Shifted(BitsOf(n, 32), 8)
  {
    c := BitsOf(n, 32);
    for k := 0 to 8
      invariant Shifted(c, 8 - k) == Shifted(BitsOf(n, 32), 8)
    {
      c := Halve(c);
    }
  }

  /** The checksum with its lookup table. */
  class Crc32 {
    const table: array<Register>
    var value: Register

    ghost predicate Valid()
      reads this, table
    {
      table.Length == 256 && forall n | 0 <= n < 256 :: table[n] == Shifted(BitsOf(n, 32), 8)
    }

    constructor ()
      ensures Valid() && fresh(table) && value == ONES
    {
      table := new Register[256];
      value := ONES;
      new;
      for n := 0 to 256
        invariant value == ONES
        invariant forall k | 0 <= k < n :: table[k] == Shifted(BitsOf(k, 32), 8)
      {
        var c := TableEntry(n);
        table[n] := c;
      }
    }

    method Update(data: seq<Byte>)
      requires Valid()
      modifies this`value
      ensures Valid() && value == DivideBits(old(value), MessageBits(data))
    {
      for i := 0 to |data|
        invariant DivideBits(value, MessageBits(data[i..])) == DivideBits(old(value), MessageBits(data))
      {
        LookupDividesByte(value, data[i]);
        assert data[i..][1..] == data[i + 1..];
        DivideInParts(value, BitsOf(data[i], 8), MessageBits(data[i + 1..]));
        value := Xor(table[ValueOf(Xor(value, BitsOf(data[i], 32))[..8])], Down(value, 8));
      }
    }

    function Finish(): Register
      reads this
    {
      Xor(value, ONES)
    }
  }

  /** A chunk's checksum, of its type and its data one after the other. */
  method ChunkCrc(kind: seq<Byte>, data: seq<Byte>) returns (crc: Register)
    ensures crc == Crc(kind + data)
  {
    var c := new Crc32();
    c.Update(kind);
    c.Update(data);
    MessageInParts(kind, data);
    DivideInParts(ONES, MessageBits(kind), MessageBits(data));
    crc := c.Finish();
  }
}
