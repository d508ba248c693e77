/** Bytes and the little-endian numbers made of them. */
module Bytes {

  type Byte = x: int | 0 <= x < 0x100

  type Word = x: int | 0 <= x < 0x1_0000

  type Dword = x: int | 0 <= x < 0x1_0000_0000

  function PutWord(v: Word): seq<Byte> {
    [v % 0x100, v / 0x100]
  }

  function PutDword(v: Dword): seq<Byte> {
    PutWord(v % 0x1_0000) + PutWord(v / 0x1_0000)
  }

  function WordAt(b: seq<Byte>, at: nat): Word
    requires at + 2 <= |b|
  {
    var low: int, high: int := b[at], b[at + 1];
    low + high * 0x100
  }

  function DwordAt(b: seq<Byte>, at: nat): Dword
    requires at + 4 <= |b|
  {
    var low: int, high: int := WordAt(b, at), WordAt(b, at + 2);
    low + high * 0x1_0000
  }

  /** A 32-bit number read as two's complement. */
  function Signed(v: Dword): int {
    if v < 0x8000_0000 then v else v - 0x1_0000_0000
  }

  predicate IsInt32(n: int) {
    -0x8000_0000 <= n < 0x8000_0000
  }

  function Unsigned(n: int): Dword
    requires IsInt32(n)
  {
    if n < 0 then n + 0x1_0000_0000 else n
  }

  function Int32At(b: seq<Byte>, at: nat): int
    requires at + 4 <= |b|
  {
    Signed(DwordAt(b, at))
  }

  lemma WordReadsBack(pre: seq<Byte>, v: Word, post: seq<Byte>)
    ensures WordAt(pre + PutWord(v) + post, |pre|) == v
  {
    var b := pre + PutWord(v) + post;
    assert b[|pre|] == v % 0x100 && b[|pre| + 1] == v / 0x100;
  }

  lemma DwordReadsBack(pre: seq<Byte>, v: Dword, post: seq<Byte>)
    ensures DwordAt(pre + PutDword(v) + post, |pre|) == v
  {
    var b := pre + PutDword(v) + post;
    assert b[|pre|] == v % 0x1_0000 % 0x100 && b[|pre| + 1] == v % 0x1_0000 / 0x100;
    assert b[|pre| + 2] == v / 0x1_0000 % 0x100 && b[|pre| + 3] == v / 0x1_0000 / 0x100;
  }
}
