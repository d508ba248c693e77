/** The blocks of a dat file and the bytes a chain of them holds. */
module DatChain {
  import opened Wrappers
  import opened Bytes

  datatype DatError =
    | BlockOutOfRange(offset: int)
    | ChainEnded(start: int, needed: nat, read: nat)
    | BadNodeEntryCount(offset: int, count: int)
    | BadChild(offset: int, child: int)
    | UnexpectedEnd
    | Compressed(id: int)
    | EntryTooLarge(id: int, size: nat)
    | Undecodable(id: int)

  /** A mapped dat file. A block holds its 4-byte next pointer and at least one
      byte of data. */
  datatype Dat = Dat(bytes: seq<Byte>, blockSize: nat, rootBlock: int) {
    predicate Valid() {
      blockSize > 4
    }

    function PerBlock(): nat
      requires Valid()
    {
      blockSize - 4
    }

    /** The block at `offset` has room for its pointer and `take` bytes. */
    predicate InRange(offset: int, take: nat) {
      0 <= offset && offset + 4 + take <= |bytes|
    }

    function Payload(offset: nat, take: nat): (r: seq<Byte>)
      requires InRange(offset, take)
      ensures |r| == take
    {
      bytes[offset + 4..offset + 4 + take]
    }

    function NextBlock(offset: nat): int
      requires InRange(offset, 0)
    {
      Int32At(bytes, offset)
    }
  }

  function Min(a: nat, b: nat): nat {
    if a < b then a else b
  }

  /** What following the chain from `block` adds to the `read` bytes already
      gathered, up to `len`. */
  function Gather(dat: Dat, start: int, block: int, len: nat, read: nat): (r: Result<seq<Byte>, DatError>)
    requires dat.Valid() && read <= len
    ensures r.Ok? ==> |r.value| == len - read
    decreases len - read
  {
    if read == len then Ok([])
    else if block == 0 then Err(ChainEnded(start, len, read))
    else
      var take := Min(dat.PerBlock(), len - read);
      if !dat.InRange(block, take) then Err(BlockOutOfRange(block))
      else
        match Gather(dat, start, dat.NextBlock(block), len, read + take)
        case Err(e) => Err(e)
        case Ok(more) => Ok(dat.Payload(block, take) + more)
  }

  function ReadChain(dat: Dat, start: int, len: nat): Result<seq<Byte>, DatError>
    requires dat.Valid()
  {
    Gather(dat, start, start, len, 0)
  }

  /** What the rest of the chain adds to the bytes `out` gathered so far. */
  function GatherOnto(dat: Dat, start: int, block: int, len: nat, out: seq<Byte>): Result<seq<Byte>, DatError>
    requires dat.Valid() && |out| <= len
  {
    match Gather(dat, start, block, len, |out|)
    case Err(e) => Err(e)
    case Ok(more) => Ok(out + more)
  }

  lemma GatherOntoStep(dat: Dat, start: int, block: int, len: nat, out: seq<Byte>)
    requires dat.Valid() && |out| < len && block != 0
    ensures
      var take := Min(dat.PerBlock(), len - |out|);
      GatherOnto(dat, start, block, len, out) ==
        if !dat.InRange(block, take) then Err(BlockOutOfRange(block))
        else GatherOnto(dat, start, dat.NextBlock(block), len, out + dat.Payload(block, take))
  {
    var take := Min(dat.PerBlock(), len - |out|);
    if dat.InRange(block, take) {
      var more := Gather(dat, start, dat.NextBlock(block), len, |out| + take);
      if more.Ok? {
        assert out + (dat.Payload(block, take) + more.value) == out + dat.Payload(block, take) + more.value;
      }
    }
  }

  lemma GatherFromNothing(dat: Dat, start: int, len: nat)
    requires dat.Valid()
    ensures GatherOnto(dat, start, start, len, []) == ReadChain(dat, start, len)
  {
    assert forall more: seq<Byte> :: [] + more == more;
  }

  /** The reader's loop: it always ends, even on a chain that loops, because
      every block adds at least one byte. */
  method GatherChain(dat: Dat, start: int, len: nat) returns (r: Result<seq<Byte>, DatError>)
    requires dat.Valid()
    ensures r == ReadChain(dat, start, len)
  {
    var perBlock := dat.blockSize - 4;
    var out: seq<Byte> := [];
    var block := start;
    GatherFromNothing(dat, start, len);
    while block != 0 && |out| < len
      invariant |out| <= len
      invariant ReadChain(dat, start, len) == GatherOnto(dat, start, block, len, out)
      decreases len - |out|
    {
      GatherOntoStep(dat, start, block, len, out);
      var take := if perBlock < len - |out| then perBlock else len - |out|;
      if block < 0 || block + 4 + take > |dat.bytes| {
        return Err(BlockOutOfRange(block));
      }
      var span := dat.bytes[block..block + 4 + take];
      assert span[4..] == dat.Payload(block, take);
      block := Int32At(dat.bytes, block);
      out := out + span[4..];
    }
    if |out| < len {
      return Err(ChainEnded(start, len, |out|));
    }
    assert out + [] == out;
    r := Ok(out);
  }

  // ---- What a chain holds ---------------------------------------------------------

  /** `data` lies in the blocks at `offsets`, wherever they are: each holds as
      much of it as a block takes, and points to the next. */
  predicate Laid(dat: Dat, offsets: seq<int>, data: seq<Byte>)
    requires dat.Valid()
    decreases |data|
  {
    if data == [] then offsets == []
    else
      var take := Min(dat.PerBlock(), |data|);
      && offsets != []
      && offsets[0] != 0 && dat.InRange(offsets[0], take)
      && dat.Payload(offsets[0], take) == data[..take]
      && (take < |data| ==> |offsets| > 1 && dat.NextBlock(offsets[0]) == offsets[1])
      && Laid(dat, offsets[1..], data[take..])
  }

  /** One block of a laid chain, and the rest of it. */
  lemma GatherStep(dat: Dat, start: int, block: int, next: int, len: nat, read: nat, more: seq<Byte>)
    requires dat.Valid() && read < len && block != 0
    requires dat.InRange(block, Min(dat.PerBlock(), len - read))
    requires
      var take := Min(dat.PerBlock(), len - read);
      Gather(dat, start, dat.NextBlock(block), len, read + take) == Ok(more)
    ensures Gather(dat, start, block, len, read)
      == Ok(dat.Payload(block, Min(dat.PerBlock(), len - read)) + more)
  {
  }

  lemma {:induction false} GatherReadsLaid(
      dat: Dat, start: int, block: int, offsets: seq<int>, data: seq<Byte>, len: nat, read: nat)
    requires dat.Valid() && Laid(dat, offsets, data) && len == read + |data|
    requires data != [] ==> offsets[0] == block
    ensures Gather(dat, start, block, len, read) == Ok(data)
    decreases |data|
  {
    if data != [] {
      var take := Min(dat.PerBlock(), |data|);
      var next := dat.NextBlock(block);
      GatherReadsLaid(dat, start, next, offsets[1..], data[take..], len, read + take);
      GatherStep(dat, start, block, next, len, read, data[take..]);
      assert data == data[..take] + data[take..];
    }
  }

  lemma LaidStep(dat: Dat, block: int, rest: seq<int>, part: seq<Byte>, more: seq<Byte>)
    requires dat.Valid() && block != 0 && Laid(dat, rest, more)
    requires |part| == Min(dat.PerBlock(), |part| + |more|) > 0
    requires dat.InRange(block, |part|) && dat.Payload(block, |part|) == part
    requires more != [] ==> rest[0] == dat.NextBlock(block)
    ensures Laid(dat, [block] + rest, part + more)
  {
    var data, offsets := part + more, [block] + rest;
    assert data[..|part|] == part && data[|part|..] == more && offsets[1..] == rest;
  }

  lemma {:induction false} GatheredIsLaid(dat: Dat, start: int, block: int, len: nat, read: nat)
      returns (offsets: seq<int>)
    requires dat.Valid() && read <= len && Gather(dat, start, block, len, read).Ok?
    ensures
      var data := Gather(dat, start, block, len, read).value;
      Laid(dat, offsets, data) && (data != [] ==> offsets[0] == block)
    decreases len - read
  {
    if read == len {
      offsets := [];
    } else {
      var take, next := Min(dat.PerBlock(), len - read), dat.NextBlock(block);
      var rest := GatheredIsLaid(dat, start, next, len, read + take);
      var more := Gather(dat, start, next, len, read + take).value;
      LaidStep(dat, block, rest, dat.Payload(block, take), more);
      offsets := [block] + rest;
    }
  }

  /** `data` is laid in blocks linked from `start` on. */
  ghost predicate LaidFrom(dat: Dat, start: int, data: seq<Byte>)
    requires dat.Valid()
  {
    exists offsets :: Laid(dat, offsets, data) && (data != [] ==> offsets[0] == start)
  }

  /** Reading a chain gives `data` exactly when `data` is laid in blocks linked
      from `start`; where the blocks lie and what follows them is no matter. */
  lemma ReadsExactlyWhatIsLaid(dat: Dat, start: int, data: seq<Byte>)
    requires dat.Valid()
    ensures ReadChain(dat, start, |data|) == Ok(data) <==> LaidFrom(dat, start, data)
  {
    if ReadChain(dat, start, |data|) == Ok(data) {
      var offsets := GatheredIsLaid(dat, start, start, |data|, 0);
      assert Laid(dat, offsets, data);
    }
    if LaidFrom(dat, start, data) {
      var offsets :| Laid(dat, offsets, data) && (data != [] ==> offsets[0] == start);
      assert Laid(dat, offsets, data);
      GatherReadsLaid(dat, start, start, offsets, data, |data|, 0);
    }
  }
}
