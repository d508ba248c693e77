/** PNG files of raw pixels, and the reader the standards describe: what is
    written reads back, pixel for pixel. */
module PngFile {
  import opened Wrappers
  import opened Bytes
  import opened Png
  import opened PngCrc

  // ---- Stored deflate blocks, RFC 1951 section 3.2.4 ------------------------------

  const BLOCK := 0xFFFF

  function Block(last: bool, data: seq<Byte>): seq<Byte>
    requires |data| <= BLOCK
  {
    [if last then 1 else 0] + PutWord(|data|) + PutWord(0xFFFF - |data|) + data
  }

  function Blocks(data: seq<Byte>): seq<Byte> {
    if |data| <= BLOCK then Block(true, data) else Block(false, data[..BLOCK]) + Blocks(data[BLOCK..])
  }

  /** A 32-bit number, the highest byte first. */
  function PutBig(v: Dword): seq<Byte> {
    [v / 0x100_0000, v / 0x1_0000 % 0x100, v / 0x100 % 0x100, v % 0x100]
  }

  function BigAt(b: seq<Byte>, at: nat): Dword
    requires at + 4 <= |b|
  {
    var b0: int, b1: int, b2: int, b3: int := b[at], b[at + 1], b[at + 2], b[at + 3];
    b0 * 0x100_0000 + b1 * 0x1_0000 + b2 * 0x100 + b3
  }

  function Zlib(data: seq<Byte>): seq<Byte> {
    [0x78, 0x01] + Blocks(data) + PutBig(Adler(data))
  }

  method StoredBlock(last: bool, data: seq<Byte>) returns (out: seq<Byte>)
    requires |data| <= BLOCK
    ensures out == Block(last, data)
  {
    out := [if last then 1 else 0];
    out := out + PutWord(|data|);
    out := out + PutWord(0xFFFF - |data|);
    out := out + data;
  }

  method ZlibStored(data: seq<Byte>) returns (out: seq<Byte>)
    ensures out == Zlib(data)
  {
    out := [0x78, 0x01];
    if data == [] {
      out := out + [1, 0, 0, 0xFF, 0xFF];
      assert Blocks([]) == [1] + PutWord(0) + PutWord(0xFFFF) + [];
      assert PutWord(0) == [0, 0] && PutWord(0xFFFF) == [0xFF, 0xFF];
    }
    var start := 0;
    ghost var head := out;
    while start < |data|
      invariant start <= |data|
      invariant data != [] ==>
        head + Blocks(data) == out + if start < |data| then Blocks(data[start..]) else []
      invariant data == [] ==> out == head
      decreases |data| - start
    {
      var end := if |data| - start < BLOCK then |data| else start + BLOCK;
      var last := end == |data|;
      var block := StoredBlock(last, data[start..end]);
      BlocksStep(data, start, end);
      Associate(out, block, if last then [] else Blocks(data[end..]));
      out := out + block;
      start := end;
    }
    assert data != [] ==> out + [] == out;
    var check := Adler32(data);
    out := out + PutBig(check);
  }

  lemma BlocksStep(data: seq<Byte>, start: nat, end: nat)
    requires start < |data| && end == if |data| - start < BLOCK then |data| else start + BLOCK
    ensures Blocks(data[start..])
      == Block(end == |data|, data[start..end]) + if end == |data| then [] else Blocks(data[end..])
  {
    var rest := data[start..];
    if |rest| <= BLOCK {
      assert data[start..end] == rest;
      assert Block(true, rest) + [] == Block(true, rest);
    } else {
      assert rest[..BLOCK] == data[start..end] && rest[BLOCK..] == data[end..];
    }
  }

  lemma Associate(a: seq<Byte>, b: seq<Byte>, c: seq<Byte>)
    ensures a + (b + c) == a + b + c
  {
  }

  /** The bytes of stored blocks, and what follows the last of them. */
  function Inflate(z: seq<Byte>): Option<(seq<Byte>, seq<Byte>)>
    decreases |z|
  {
    if |z| < 5 || z[0] / 2 % 4 != 0 then None
    else
      var len: nat := WordAt(z, 1);
      if WordAt(z, 3) != 0xFFFF - len || 5 + len > |z| then None
      else if z[0] % 2 == 1 then Some((z[5..5 + len], z[5 + len..]))
      else
        match Inflate(z[5 + len..])
        case None => None
        case Some((more, rest)) => Some((z[5..5 + len] + more, rest))
  }

  /** Deflate, no preset dictionary, and the two bytes a multiple of 31. */
  predicate HeaderFits(cmf: int, flg: int) {
    cmf % 16 == 8 && flg / 32 % 2 == 0 && (cmf * 256 + flg) % 31 == 0
  }

  /** A zlib stream, RFC 1950 section 2.2, read to its end. */
  function Unzip(z: seq<Byte>): Option<seq<Byte>> {
    if |z| < 2 || !HeaderFits(z[0], z[1]) then None
    else
      match Inflate(z[2..])
      case None => None
      case Some((data, rest)) => if |rest| == 4 && BigAt(rest, 0) == Adler(data) then Some(data) else None
  }

  /** What stands at the start of a block. */
  predicate StartsBlock(z: seq<Byte>, last: bool, data: seq<Byte>, rest: seq<Byte>) {
    && 5 + |data| <= |z| && z[0] == (if last then 1 else 0)
    && WordAt(z, 1) == |data| && WordAt(z, 3) == 0xFFFF - |data|
    && z[5..5 + |data|] == data && z[5 + |data|..] == rest
  }

  lemma BlockStands(last: bool, data: seq<Byte>, rest: seq<Byte>)
    requires |data| <= BLOCK
    ensures StartsBlock(Block(last, data) + rest, last, data, rest)
  {
    var z := Block(last, data) + rest;
    var head: seq<Byte> := [if last then 1 else 0, |data| % 0x100, |data| / 0x100, (0xFFFF - |data|) % 0x100, (0xFFFF - |data|) / 0x100];
    assert Block(last, data) == head + data;
    assert z == head + (data + rest);
    assert z[0] == head[0] && z[1] == head[1] && z[2] == head[2] && z[3] == head[3] && z[4] == head[4];
  }

  lemma LastBlockInflates(z: seq<Byte>, data: seq<Byte>, rest: seq<Byte>)
    requires |data| <= BLOCK && StartsBlock(z, true, data, rest)
    ensures Inflate(z) == Some((data, rest))
  {
  }

  lemma BlockInflates(z: seq<Byte>, data: seq<Byte>, others: seq<Byte>, more: seq<Byte>, rest: seq<Byte>)
    requires |data| <= BLOCK && StartsBlock(z, false, data, others) && Inflate(others) == Some((more, rest))
    ensures Inflate(z) == Some((data + more, rest))
  {
  }

  lemma {:induction false} BlocksReadBack(data: seq<Byte>, rest: seq<Byte>)
    ensures Inflate(Blocks(data) + rest) == Some((data, rest))
    decreases |data|
  {
    if |data| <= BLOCK {
      BlockStands(true, data, rest);
      LastBlockInflates(Blocks(data) + rest, data, rest);
    } else {
      var others := Blocks(data[BLOCK..]) + rest;
      BlocksReadBack(data[BLOCK..], rest);
      BlockStands(false, data[..BLOCK], others);
      Associate(Block(false, data[..BLOCK]), Blocks(data[BLOCK..]), rest);
      BlockInflates(Blocks(data) + rest, data[..BLOCK], others, data[BLOCK..], rest);
      assert data[..BLOCK] + data[BLOCK..] == data;
    }
  }

  lemma BigReadsBack(v: Dword, rest: seq<Byte>)
    ensures BigAt(PutBig(v) + rest, 0) == v
  {
    BigParts(v);
  }

  lemma BigParts(v: Dword)
    ensures v / 0x100_0000 * 0x100_0000 + v / 0x1_0000 % 0x100 * 0x1_0000 + v / 0x100 % 0x100 * 0x100 + v % 0x100 == v
  {
  }

  lemma StreamUnzips(z: seq<Byte>, data: seq<Byte>, rest: seq<Byte>)
    requires |z| >= 2 && HeaderFits(z[0], z[1]) && Inflate(z[2..]) == Some((data, rest))
    requires |rest| == 4 && BigAt(rest, 0) == Adler(data)
    ensures Unzip(z) == Some(data)
  {
  }

  lemma BigAlone(v: Dword)
    ensures |PutBig(v)| == 4 && BigAt(PutBig(v), 0) == v
  {
    BigParts(v);
  }

  lemma ZlibStarts(data: seq<Byte>)
    ensures |Zlib(data)| >= 2 && HeaderFits(Zlib(data)[0], Zlib(data)[1])
    ensures Zlib(data)[2..] == Blocks(data) + PutBig(Adler(data))
  {
    assert Zlib(data) == [0x78, 0x01] + (Blocks(data) + PutBig(Adler(data)));
  }

  /** Data of any length comes back from its stream. */
  lemma ZlibReadsBack(data: seq<Byte>)
    ensures Unzip(Zlib(data)) == Some(data)
  {
    var check := PutBig(Adler(data));
    BlocksReadBack(data, check);
    BigAlone(Adler(data));
    ZlibStarts(data);
    StreamUnzips(Zlib(data), data, check);
  }

  // ---- Chunks, RFC 2083 section 3 -----------------------------------------------------

  /** A checksum register as four bytes, the highest first. */
  function CrcBytes(c: Register): (b: seq<Byte>)
    ensures |b| == 4
  {
    ByteValue(c[24..32]);
    ByteValue(c[16..24]);
    ByteValue(c[8..16]);
    ByteValue(c[..8]);
    [ValueOf(c[24..32]), ValueOf(c[16..24]), ValueOf(c[8..16]), ValueOf(c[..8])]
  }

  /** The length field cannot say more than 32 bits. */
  function LengthField(n: nat): Dword {
    if n < 0x1_0000_0000 then n else 0xFFFF_FFFF
  }

  function Chunk(kind: seq<Byte>, data: seq<Byte>): seq<Byte>
    requires |kind| == 4
  {
    ChunkOf(kind, data, CrcBytes(Crc(kind + data)))
  }

  function ChunkOf(kind: seq<Byte>, data: seq<Byte>, crc: seq<Byte>): seq<Byte> {
    PutBig(LengthField(|data|)) + kind + data + crc
  }

  method WriteChunk(out: seq<Byte>, kind: seq<Byte>, data: seq<Byte>) returns (r: seq<Byte>)
    requires |kind| == 4
    ensures r == out + Chunk(kind, data)
  {
    var crc := ChunkCrc(kind, data);
    r := out + ChunkOf(kind, data, CrcBytes(crc));
  }

  /** The data and checksum of a chunk of the wanted kind, and what follows. */
  function SplitChunk(png: seq<Byte>, kind: seq<Byte>): Option<(seq<Byte>, seq<Byte>, seq<Byte>)>
    requires |kind| == 4
  {
    if |png| < 12 then None
    else
      var len: nat := BigAt(png, 0);
      if 12 + len > |png| || png[4..8] != kind then None
      else Some((png[8..8 + len], png[8 + len..12 + len], png[12 + len..]))
  }

  predicate Checked(kind: seq<Byte>, data: seq<Byte>, crc: seq<Byte>) {
    crc == CrcBytes(Crc(kind + data))
  }

  /** A chunk's data, its checksum right, and what follows it. */
  function ReadChunk(png: seq<Byte>, kind: seq<Byte>): Option<(seq<Byte>, seq<Byte>)>
    requires |kind| == 4
  {
    match SplitChunk(png, kind)
    case None => None
    case Some((data, crc, rest)) => if Checked(kind, data, crc) then Some((data, rest)) else None
  }

  lemma ChunkSplits(kind: seq<Byte>, data: seq<Byte>, crc: seq<Byte>, rest: seq<Byte>)
    requires |kind| == 4 && |crc| == 4 && |data| < 0x1_0000_0000
    ensures SplitChunk(ChunkOf(kind, data, crc) + rest, kind) == Some((data, crc, rest))
  {
    var png := ChunkOf(kind, data, crc) + rest;
    assert png == PutBig(|data|) + (kind + data + crc + rest);
    BigReadsBack(|data|, kind + data + crc + rest);
    assert png[4..8] == kind && png[8..8 + |data|] == data;
    assert png[8 + |data|..12 + |data|] == crc && png[12 + |data|..] == rest;
  }

  lemma ShortChunkReadsBack(kind: seq<Byte>, data: seq<Byte>, rest: seq<Byte>)
    requires |kind| == 4 && |data| < 0x1_0000_0000
    ensures ReadChunk(Chunk(kind, data) + rest, kind) == Some((data, rest))
  {
    var crc := CrcBytes(Crc(kind + data));
    assert Checked(kind, data, crc);
    ChunkSplits(kind, data, crc, rest);
  }

  /** A chunk with more data than its length can say is cut short when read. */
  lemma LongChunkIsCut(kind: seq<Byte>, data: seq<Byte>, rest: seq<Byte>)
    requires |kind| == 4 && |data| >= 0x1_0000_0000
    ensures
      var read := ReadChunk(Chunk(kind, data) + rest, kind);
      read.Some? ==> |read.value.0| == 0xFFFF_FFFF && |read.value.1| == |data| - 0xFFFF_FFFF + |rest|
  {
    var crc := CrcBytes(Crc(kind + data));
    var png := Chunk(kind, data) + rest;
    assert png == PutBig(0xFFFF_FFFF) + (kind + data + crc + rest);
    BigReadsBack(0xFFFF_FFFF, kind + data + crc + rest);
  }

  /** A chunk reads back exactly when its length can be said in 32 bits. */
  lemma ChunkReadsBack(kind: seq<Byte>, data: seq<Byte>, rest: seq<Byte>)
    requires |kind| == 4
    ensures ReadChunk(Chunk(kind, data) + rest, kind) == Some((data, rest)) <==> |data| < 0x1_0000_0000
  {
    if |data| < 0x1_0000_0000 {
      ShortChunkReadsBack(kind, data, rest);
    } else {
      LongChunkIsCut(kind, data, rest);
    }
  }

  // ---- Images ----------------------------------------------------------------------

  const SIGNATURE: seq<Byte> := [0x89, 0x50, 0x4E, 0x47, 0x0D, 0x0A, 0x1A, 0x0A]
  const IHDR: seq<Byte> := [0x49, 0x48, 0x44, 0x52]
  const IDAT: seq<Byte> := [0x49, 0x44, 0x41, 0x54]
  const IEND: seq<Byte> := [0x49, 0x45, 0x4E, 0x44]

  /** Bit depth 8, RGBA, and the only methods there are. */
  const FORMAT: seq<Byte> := [8, 6, 0, 0, 0]

  /** Scanlines of `row` bytes, each behind its filter type, 0; a part of one at
      the end is left out. */
  function Rows(rgba: seq<Byte>, row: nat, height: nat): seq<Byte>
    requires row > 0
    decreases height
  {
    if height == 0 || |rgba| < row then [] else [0] + rgba[..row] + Rows(rgba[row..], row, height - 1)
  }

  function Header(width: Dword, height: Dword): seq<Byte> {
    PutBig(width) + PutBig(height) + FORMAT
  }

  /** A row of no pixels is taken as one byte. */
  function RowOf(width: Dword): nat {
    if width == 0 then 1 else 4 * width
  }

  function Encoded(width: Dword, height: Dword, rgba: seq<Byte>): seq<Byte> {
    SIGNATURE
    + (Chunk(IHDR, Header(width, height)) + (Chunk(IDAT, Zlib(Rows(rgba, RowOf(width), height))) + Chunk(IEND, [])))
  }

  method RawRows(rgba: seq<Byte>, row: nat, height: nat) returns (raw: seq<Byte>)
    requires row > 0
    ensures raw == Rows(rgba, row, height)
  {
    raw := [];
    var taken := 0;
    var start := 0;
    assert rgba[0..] == rgba;
    while taken < height && start + row <= |rgba|
      invariant start <= |rgba| && taken <= height
      invariant raw + Rows(rgba[start..], row, height - taken) == Rows(rgba, row, height)
      decreases height - taken
    {
      RowsStep(raw, rgba, start, row, height - taken);
      raw := raw + [0] + rgba[start..start + row];
      start, taken := start + row, taken + 1;
    }
    assert raw + [] == raw;
  }

  lemma RowsStep(raw: seq<Byte>, rgba: seq<Byte>, start: nat, row: nat, left: nat)
    requires row > 0 && left > 0 && start + row <= |rgba|
    ensures raw + Rows(rgba[start..], row, left)
      == raw + [0] + rgba[start..start + row] + Rows(rgba[start + row..], row, left - 1)
  {
    assert rgba[start..][..row] == rgba[start..start + row] && rgba[start..][row..] == rgba[start + row..];
  }

  method EncodeRgba(width: Dword, height: Dword, rgba: seq<Byte>) returns (png: seq<Byte>)
    ensures png == Encoded(width, height, rgba)
  {
    var raw := RawRows(rgba, RowOf(width), height);
    var stream := ZlibStored(raw);
    png := WriteChunk(SIGNATURE, IHDR, PutBig(width) + PutBig(height) + FORMAT);
    Associate(SIGNATURE, Chunk(IHDR, Header(width, height)), Chunk(IDAT, stream));
    png := WriteChunk(png, IDAT, stream);
    png := WriteChunk(png, IEND, []);
    FourTogether(SIGNATURE, Chunk(IHDR, Header(width, height)), Chunk(IDAT, stream), Chunk(IEND, []));
  }

  lemma FourTogether(a: seq<Byte>, b: seq<Byte>, c: seq<Byte>, d: seq<Byte>)
    ensures a + b + c + d == a + (b + (c + d))
  {
  }

  /** The pixels of unfiltered scanlines. */
  function Pixels(raw: seq<Byte>, row: nat, height: nat): Option<seq<Byte>>
    decreases height
  {
    if height == 0 then if raw == [] then Some([]) else None
    else if |raw| < row + 1 || raw[0] != 0 then None
    else
      match Pixels(raw[row + 1..], row, height - 1)
      case None => None
      case Some(rest) => Some(raw[1..row + 1] + rest)
  }

  datatype Image = Image(width: Dword, height: Dword, rgba: seq<Byte>)

  /** The size in a header of the one format written here. */
  function ReadHeader(header: seq<Byte>): Option<(Dword, Dword)> {
    if |header| != 13 || header[8..] != FORMAT then None else Some((BigAt(header, 0), BigAt(header, 4)))
  }

  function ReadImage(header: seq<Byte>, stream: seq<Byte>): Option<Image> {
    match (ReadHeader(header), Unzip(stream))
    case (Some((width, height)), Some(raw)) =>
      var pixels: int := width;
      (match Pixels(raw, 4 * pixels, height)
       case None => None
       case Some(rgba) => Some(Image(width, height, rgba)))
    case _ => None
  }

  /** A file of one header, one run of data and an end. */
  function ReadPng(png: seq<Byte>): Option<Image> {
    if |png| < 8 || png[..8] != SIGNATURE then None
    else
      match ReadChunk(png[8..], IHDR)
      case None => None
      case Some((header, afterHeader)) =>
        match ReadChunk(afterHeader, IDAT)
        case None => None
        case Some((stream, afterData)) =>
          if ReadChunk(afterData, IEND) == Some(([], [])) then ReadImage(header, stream) else None
  }

  lemma {:induction false} PixelsReadBack(rgba: seq<Byte>, row: nat, height: nat)
    requires row > 0 && |rgba| == row * height
    ensures Pixels(Rows(rgba, row, height), row, height) == Some(rgba)
    decreases height
  {
    if height > 0 {
      OneRowLess(|rgba|, row, height);
      PixelsReadBack(rgba[row..], row, height - 1);
      var rest := Rows(rgba[row..], row, height - 1);
      var raw := [0] + rgba[..row] + rest;
      assert raw[1..row + 1] == rgba[..row] && raw[row + 1..] == rest;
      assert rgba[..row] + rgba[row..] == rgba;
    }
  }

  lemma OneRowLess(length: nat, row: nat, height: nat)
    requires height > 0 && length == row * height
    ensures length >= row && length - row == row * (height - 1)
  {
  }

  lemma HeaderReadsBack(width: Dword, height: Dword)
    ensures ReadHeader(Header(width, height)) == Some((width, height))
  {
    var header := Header(width, height);
    assert header == PutBig(width) + (PutBig(height) + FORMAT);
    BigReadsBack(width, PutBig(height) + FORMAT);
    BigParts(height);
    assert header[8..] == FORMAT;
  }

  // ---- How long a stream is ------------------------------------------------------------

  function BlockCount(n: nat): nat {
    if n == 0 then 1 else (n + BLOCK - 1) / BLOCK
  }

  function StreamSize(n: nat): nat {
    n + 5 * BlockCount(n) + 6
  }

  lemma {:induction false} BlocksSize(data: seq<Byte>)
    ensures |Blocks(data)| == |data| + 5 * BlockCount(|data|)
    decreases |data|
  {
    if |data| > BLOCK {
      BlocksSize(data[BLOCK..]);
      assert (|data| + BLOCK - 1) / BLOCK == (|data| - BLOCK + BLOCK - 1) / BLOCK + 1;
    }
  }

  lemma ZlibSize(data: seq<Byte>)
    ensures |Zlib(data)| == StreamSize(|data|)
  {
    BlocksSize(data);
  }

  lemma {:induction false} RowsSize(rgba: seq<Byte>, row: nat, height: nat)
    requires row > 0 && |rgba| == row * height
    ensures |Rows(rgba, row, height)| == (row + 1) * height
    decreases height
  {
    if height > 0 {
      OneRowLess(|rgba|, row, height);
      RowsSize(rgba[row..], row, height - 1);
      assert (row + 1) * height == (row + 1) * (height - 1) + (row + 1);
    }
  }

  function PixelBytes(row: nat, height: nat): nat {
    row * height
  }

  /** Each row has its filter type before it. */
  function RowBytes(row: nat, height: nat): nat {
    (row + 1) * height
  }

  /** Rows are cut from the front, and what is left over is dropped. */
  lemma {:induction false} RowsOfEnough(rgba: seq<Byte>, row: nat, height: nat)
    requires row > 0 && |rgba| >= PixelBytes(row, height)
    ensures Rows(rgba, row, height) == Rows(rgba[..PixelBytes(row, height)], row, height)
    decreases height
  {
    if height > 0 {
      OneRowMore(row, height);
      var less := rgba[..row * height];
      RowsOfEnough(rgba[row..], row, height - 1);
      assert less[..row] == rgba[..row];
      assert less[row..] == rgba[row..][..row * (height - 1)];
    }
  }

  lemma OneRowMore(row: nat, height: nat)
    requires height > 0
    ensures row * height == row * (height - 1) + row
  {
  }

  lemma {:induction false} TooFewRows(rgba: seq<Byte>, row: nat, height: nat)
    requires row > 0 && |rgba| < PixelBytes(row, height)
    ensures |Rows(rgba, row, height)| < RowBytes(row, height)
    decreases height
  {
    OneRowMore(row, height);
    OneRowMore(row + 1, height);
    if |rgba| >= row {
      TooFewRows(rgba[row..], row, height - 1);
    }
  }

  lemma {:induction false} PixelsTakeAll(raw: seq<Byte>, row: nat, height: nat)
    ensures Pixels(raw, row, height).Some? ==> |raw| == RowBytes(row, height)
    decreases height
  {
    if height > 0 && |raw| >= row + 1 {
      OneRowMore(row + 1, height);
      PixelsTakeAll(raw[row + 1..], row, height - 1);
    }
  }

  // ---- Images of no width ----------------------------------------------------------------

  predicate AllZero(b: seq<Byte>) {
    forall i | 0 <= i < |b| :: b[i] == 0
  }

  lemma {:induction false} EmptyRows(raw: seq<Byte>, height: nat)
    ensures Pixels(raw, 0, height) == if |raw| == height && AllZero(raw) then Some([]) else None
    decreases height
  {
    if height > 0 && raw != [] {
      EmptyRows(raw[1..], height - 1);
      assert raw == [raw[0]] + raw[1..];
      ZeroParts([raw[0]], raw[1..]);
      assert AllZero([raw[0]]) <==> [raw[0]][0] == 0;
      assert raw[1..0 + 1] + [] == [];
      assert raw[0 + 1..] == raw[1..];
    }
  }

  lemma {:induction false} BytesAsRows(rgba: seq<Byte>, height: nat)
    ensures
      var raw, n := Rows(rgba, 1, height), if |rgba| < height then |rgba| else height;
      |raw| == 2 * n && (AllZero(raw) <==> AllZero(rgba[..n]))
    decreases height
  {
    if height > 0 && rgba != [] {
      var n := if |rgba| < height then |rgba| else height;
      var rest := Rows(rgba[1..], 1, height - 1);
      BytesAsRows(rgba[1..], height - 1);
      assert Rows(rgba, 1, height) == [0, rgba[0]] + rest;
      assert rgba[..n] == [rgba[0]] + rgba[1..][..n - 1];
      ZeroParts([0, rgba[0]], rest);
      ZeroParts([rgba[0]], rgba[1..][..n - 1]);
      assert AllZero([rgba[0]]) <==> [rgba[0]][0] == 0;
      assert AllZero([0, rgba[0]]) <==> [0, rgba[0]][1] == 0;
    }
  }

  lemma ZeroParts(a: seq<Byte>, b: seq<Byte>)
    ensures AllZero(a + b) <==> AllZero(a) && AllZero(b)
  {
    var s := a + b;
    if AllZero(s) {
      assert forall i | 0 <= i < |a| :: s[i] == a[i];
      assert forall i | 0 <= i < |b| :: s[|a| + i] == b[i];
    }
  }

  /** Whether an image reads back: there are bytes for all its rows, and its stream
      fits the one chunk it is put in. One of no width is taken a byte to a row, so it
      reads back only with none, or by accident. */
  predicate Fits(width: nat, height: nat, rgba: seq<Byte>) {
    if width > 0 then |rgba| >= PixelBytes(4 * width, height) && StreamSize(RowBytes(4 * width, height)) < 0x1_0000_0000
    else height == 0 || (2 * |rgba| == height && AllZero(rgba) && StreamSize(height) < 0x1_0000_0000)
  }

  // ---- What is written is read ------------------------------------------------------------

  /** The image data chunk of a file, and what is read of the rest. */
  lemma AfterHeader(width: Dword, height: Dword, stream: seq<Byte>)
    ensures
      var tail := Chunk(IDAT, stream) + Chunk(IEND, []);
      ReadPng(SIGNATURE + (Chunk(IHDR, Header(width, height)) + tail)) ==
        match ReadChunk(tail, IDAT)
        case None => None
        case Some((data, after)) =>
          if ReadChunk(after, IEND) == Some(([], [])) then ReadImage(Header(width, height), data) else None
  {
    var tail := Chunk(IDAT, stream) + Chunk(IEND, []);
    var header := Header(width, height);
    var png := SIGNATURE + (Chunk(IHDR, header) + tail);
    ShortChunkReadsBack(IHDR, header, tail);
    assert png[..8] == SIGNATURE && png[8..] == Chunk(IHDR, header) + tail;
  }

  lemma EndIsTwelve(end: seq<Byte>)
    requires ReadChunk(end, IEND) == Some(([], []))
    ensures |end| == 12
  {
  }

  lemma LongStreamIsUnreadable(width: Dword, height: Dword, rgba: seq<Byte>)
    requires |Zlib(Rows(rgba, RowOf(width), height))| >= 0x1_0000_0000
    ensures ReadPng(Encoded(width, height, rgba)) == None
  {
    var stream, end := Zlib(Rows(rgba, RowOf(width), height)), Chunk(IEND, []);
    AfterHeader(width, height, stream);
    LongChunkIsCut(IDAT, stream, end);
    var read := ReadChunk(Chunk(IDAT, stream) + end, IDAT);
    if read.Some? && ReadChunk(read.value.1, IEND) == Some(([], [])) {
      EndIsTwelve(read.value.1);
    }
  }

  lemma ShortStreamIsRead(width: Dword, height: Dword, rgba: seq<Byte>)
    requires |Zlib(Rows(rgba, RowOf(width), height))| < 0x1_0000_0000
    ensures ReadPng(Encoded(width, height, rgba)) == ReadImage(Header(width, height), Zlib(Rows(rgba, RowOf(width), height)))
  {
    var stream, end := Zlib(Rows(rgba, RowOf(width), height)), Chunk(IEND, []);
    AfterHeader(width, height, stream);
    ShortChunkReadsBack(IDAT, stream, end);
    ShortChunkReadsBack(IEND, [], []);
    assert end + [] == end;
  }

  lemma FlatReadsBack(height: Dword, rgba: seq<Byte>)
    ensures ReadPng(Encoded(0, height, rgba)) == if Fits(0, height, rgba) then Some(Image(0, height, [])) else None
  {
    var raw := Rows(rgba, 1, height);
    BytesAsRows(rgba, height);
    EmptyRows(raw, height);
    ZlibSize(raw);
    if |Zlib(raw)| >= 0x1_0000_0000 {
      LongStreamIsUnreadable(0, height, rgba);
    } else {
      ShortStreamIsRead(0, height, rgba);
      HeaderReadsBack(0, height);
      ZlibReadsBack(raw);
    }
    assert |rgba| < height ==> rgba[..|rgba|] == rgba;
  }

  lemma RawIsRead(width: Dword, height: Dword, row: nat, raw: seq<Byte>)
    requires row == 4 * width
    ensures ReadImage(Header(width, height), Zlib(raw)) ==
      match Pixels(raw, row, height)
      case None => None
      case Some(rgba) => Some(Image(width, height, rgba))
  {
    HeaderReadsBack(width, height);
    ZlibReadsBack(raw);
  }

  lemma TooShortIsUnreadable(width: Dword, height: Dword, rgba: seq<Byte>, row: nat)
    requires row == RowOf(width) == 4 * width && |rgba| < PixelBytes(row, height)
    ensures ReadPng(Encoded(width, height, rgba)) == None
  {
    var raw := Rows(rgba, row, height);
    if |Zlib(raw)| >= 0x1_0000_0000 {
      LongStreamIsUnreadable(width, height, rgba);
    } else {
      ShortStreamIsRead(width, height, rgba);
      TooFewRows(rgba, row, height);
      PixelsTakeAll(raw, row, height);
      RawIsRead(width, height, row, raw);
    }
  }

  lemma StreamOf(rgba: seq<Byte>, row: nat, height: nat)
    requires row > 0 && |rgba| >= PixelBytes(row, height)
    ensures |Zlib(Rows(rgba, row, height))| == StreamSize(RowBytes(row, height))
    ensures Pixels(Rows(rgba, row, height), row, height) == Some(rgba[..PixelBytes(row, height)])
  {
    var pixels := rgba[..PixelBytes(row, height)];
    RowsOfEnough(rgba, row, height);
    RowsSize(pixels, row, height);
    ZlibSize(Rows(pixels, row, height));
    PixelsReadBack(pixels, row, height);
  }

  lemma EnoughReadsBack(width: Dword, height: Dword, rgba: seq<Byte>, row: nat)
    requires row == RowOf(width) == 4 * width && |rgba| >= PixelBytes(row, height)
    ensures ReadPng(Encoded(width, height, rgba)) ==
      if StreamSize(RowBytes(row, height)) < 0x1_0000_0000 then Some(Image(width, height, rgba[..PixelBytes(row, height)]))
      else None
  {
    StreamOf(rgba, row, height);
    if StreamSize(RowBytes(row, height)) < 0x1_0000_0000 {
      ShortStreamIsRead(width, height, rgba);
      RawIsRead(width, height, row, Rows(rgba, row, height));
    } else {
      LongStreamIsUnreadable(width, height, rgba);
    }
  }

  /** Whatever bytes are given for an image of whatever size: the image written is the
      image read, size and pixels, exactly when it fits; no other is ever read in its
      place. */
  lemma PngReadsBack(width: Dword, height: Dword, rgba: seq<Byte>)
    ensures Fits(width, height, rgba) && width > 0 ==> |rgba| >= PixelBytes(4 * width, height)
    ensures ReadPng(Encoded(width, height, rgba)) ==
      if !Fits(width, height, rgba) then None
      else Some(Image(width, height, if width == 0 then [] else rgba[..PixelBytes(4 * width, height)]))
  {
    if width == 0 {
      FlatReadsBack(height, rgba);
    } else if |rgba| < PixelBytes(4 * width, height) {
      TooShortIsUnreadable(width, height, rgba, 4 * width);
    } else {
      EnoughReadsBack(width, height, rgba, 4 * width);
    }
  }
}
