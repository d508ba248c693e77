/** What reading a file by id gives, in terms of what the directory lists and where
    bytes lie, and what a node's branch slots stand for. */
module DatContents {
  import opened Wrappers
  import opened Bytes
  import opened DatChain
  import opened DatNode
  import opened DatTree
  import opened DatLookup
  import opened DatReader

  /** The directory lists `e` under `id`. */
  predicate Lists(t: Tree, id: nat, e: Entry)
    requires WellShaped(t) && Intact(t)
  {
    e in InOrder(t) && e.id == id
  }

  predicate HasNone(t: Tree, id: nat)
    requires WellShaped(t) && Intact(t)
  {
    forall e | e in InOrder(t) :: e.id != id
  }

  /** `data` is the whole of what `e` says lies in the file, as it is. */
  ghost predicate IsStored(dat: Dat, e: Entry, data: seq<Byte>)
    requires dat.Valid()
  {
    e.flags % 2 == 0 && e.size <= |dat.bytes| && |data| == e.size && LaidFrom(dat, e.offset, data)
  }

  predicate IsChainError(error: DatError) {
    error.BlockOutOfRange? || error.ChainEnded?
  }

  lemma {:induction false} ChainFailsAsChain(dat: Dat, start: int, block: int, len: nat, read: nat)
    requires dat.Valid() && read <= len
    ensures Gather(dat, start, block, len, read).Err? ==> IsChainError(Gather(dat, start, block, len, read).error)
    decreases len - read
  {
    if read < len && block != 0 && dat.InRange(block, Min(dat.PerBlock(), len - read)) {
      ChainFailsAsChain(dat, start, dat.NextBlock(block), len, read + Min(dat.PerBlock(), len - read));
    }
  }

  lemma ReadIsStored(dat: Dat, e: Entry, data: seq<Byte>)
    requires dat.Valid()
    ensures ReadEntry(dat, e) == Ok(data) <==> IsStored(dat, e, data)
  {
    ReadsExactlyWhatIsLaid(dat, e.offset, data);
    if ReadEntry(dat, e) == Ok(data) {
      assert ReadChain(dat, e.offset, e.size) == Ok(data);
    }
  }

  lemma ReadFailsAs(dat: Dat, e: Entry, size: nat)
    requires dat.Valid()
    ensures ReadEntry(dat, e) == Err(Compressed(e.id)) <==> e.flags % 2 == 1
    ensures ReadEntry(dat, e) == Err(EntryTooLarge(e.id, size)) <==> e.flags % 2 == 0 && e.size == size && size > |dat.bytes|
  {
    ChainFailsAsChain(dat, e.offset, e.offset, e.size, 0);
  }

  /** Listed in order, an id has one entry. */
  lemma ListedOnce(t: Tree, id: nat, e: Entry, f: Entry)
    requires WellShaped(t) && Intact(t) && Increasing(InOrder(t)) && Lists(t, id, e) && Lists(t, id, f)
    ensures e == f
  {
    var i :| 0 <= i < |InOrder(t)| && InOrder(t)[i] == e;
    var j :| 0 <= j < |InOrder(t)| && InOrder(t)[j] == f;
  }

  /** A listed id's contents are those of its entry. */
  lemma ContentsOfListed(dat: Dat, t: Tree, id: nat, e: Entry)
    requires Opened(dat, t) && Intact(t) && Ordered(t, LEAST, MOST) && Lists(t, id, e)
    ensures Contents(dat, t, id) == (match ReadEntry(dat, e) case Err(error) => Err(error) case Ok(bytes) => Ok(Some(bytes)))
  {
    FindAnswersOrdered(t, id);
    OrderedIncreases(t, LEAST, MOST);
    ListedOnce(t, id, e, Find(t, id).value.value);
  }

  lemma ContentsOfNone(dat: Dat, t: Tree, id: nat)
    requires Opened(dat, t) && Intact(t) && Ordered(t, LEAST, MOST)
    ensures HasNone(t, id) ==> Contents(dat, t, id) == Ok(None)
    ensures !HasNone(t, id) ==> exists e :: Lists(t, id, e)
  {
    FindAnswersOrdered(t, id);
    if !HasNone(t, id) {
      var e :| e in InOrder(t) && e.id == id;
      assert Lists(t, id, e);
    }
  }

  ghost predicate ListsStored(dat: Dat, t: Tree, id: nat, data: seq<Byte>)
    requires Opened(dat, t) && Intact(t)
  {
    exists e :: Lists(t, id, e) && IsStored(dat, e, data)
  }

  ghost predicate ListsOdd(t: Tree, id: nat)
    requires WellShaped(t) && Intact(t)
  {
    exists e :: Lists(t, id, e) && e.flags % 2 == 1
  }

  ghost predicate ListsTooLarge(dat: Dat, t: Tree, id: nat, size: nat)
    requires Opened(dat, t) && Intact(t)
  {
    exists e :: Lists(t, id, e) && e.flags % 2 == 0 && e.size == size && size > |dat.bytes|
  }

  /** On an opened directory in order a file is read as exactly the bytes that lie along
      the chain of the entry listed under its id, refused exactly for an odd flag or a
      size beyond the file, and not there exactly when nothing is listed. */
  lemma ContentsAreWhatIsListed(dat: Dat, t: Tree, id: nat, data: seq<Byte>, size: nat)
    requires Opened(dat, t) && Intact(t) && Ordered(t, LEAST, MOST)
    ensures Contents(dat, t, id) == Ok(Some(data)) <==> ListsStored(dat, t, id, data)
    ensures Contents(dat, t, id) == Err(Compressed(id)) <==> ListsOdd(t, id)
    ensures Contents(dat, t, id) == Err(EntryTooLarge(id, size)) <==> ListsTooLarge(dat, t, id, size)
    ensures Contents(dat, t, id) == Ok(None) <==> HasNone(t, id)
  {
    ContentsOfNone(dat, t, id);
    if !HasNone(t, id) {
      var e :| Lists(t, id, e);
      ContentsOfListed(dat, t, id, e);
      OrderedIncreases(t, LEAST, MOST);
      forall f | Lists(t, id, f) ensures f == e {
        ListedOnce(t, id, e, f);
      }
      ReadIsStored(dat, e, data);
      ReadFailsAs(dat, e, size);
      assert IsStored(dat, e, data) <==> ListsStored(dat, t, id, data);
    }
  }

  // ---- Branch slots --------------------------------------------------------------------

  /** A slot that names no further child. */
  predicate EndsBranches(slots: seq<int>, i: nat)
    requires i < |slots|
  {
    slots[i] == 0 || slots[i] == -842150451 || (i > 0 && slots[i] == slots[i - 1])
  }

  lemma {:induction false} UsedUpToEnd(slots: seq<int>, last: int)
    requires last == 0 || IsValidOffset(last)
    ensures
      var n := |Used(slots, last)|;
      && n <= |slots| && Used(slots, last) == slots[..n]
      && (forall i | 0 <= i < n :: IsValidOffset(slots[i]) && slots[i] != if i == 0 then last else slots[i - 1])
      && (n < |slots| ==> !IsValidOffset(slots[n]) || slots[n] == if n == 0 then last else slots[n - 1])
  {
    if slots != [] && IsValidOffset(slots[0]) && slots[0] != last {
      UsedUpToEnd(slots[1..], slots[0]);
      var m := |Used(slots[1..], slots[0])|;
      assert slots[..m + 1] == [slots[0]] + slots[1..][..m];
      forall i | 0 <= i < m + 1
        ensures IsValidOffset(slots[i]) && slots[i] != if i == 0 then last else slots[i - 1]
      {
        assert i > 0 ==> slots[i] == slots[1..][i - 1];
      }
    }
  }

  /** Where the slots that name children end: nowhere before the first that names none. */
  predicate BranchesEnd(slots: seq<int>, n: nat) {
    n <= |slots| && (forall i | 0 <= i < n :: !EndsBranches(slots, i)) && (n < |slots| ==> EndsBranches(slots, n))
  }

  lemma BranchesEndOnce(slots: seq<int>, n: nat, m: nat)
    requires BranchesEnd(slots, n) && BranchesEnd(slots, m)
    ensures n == m
  {
  }

  /** Stored, a node with children has a child for each slot before the first that is
      zero, the fill pattern or a repeat; with entries too there is one child more than
      there are entries, zero where no slot named one. */
  lemma ChildrenOfStored(offset: int, slots: seq<int>, files: seq<Entry>, post: seq<Byte>, n: nat)
    requires |slots| == MAX_BRANCHES && forall s | s in slots :: IsInt32(s)
    requires |files| <= MAX_FILES && (forall e | e in files :: Storable(e)) && BranchesEnd(slots, n)
    ensures
      var r := Unpack(offset, NodeBytes(slots, files) + post);
      && r.Ok? && r.value.offset == offset && r.value.files == files
      && |r.value.branches| == (if n > 0 && files != [] then |files| + 1 else n)
      && forall i | 0 <= i < |r.value.branches| :: r.value.branches[i] == if i < n then slots[i] else 0
  {
    UnpackReadsBack(offset, slots, files, post);
    UsedUpToEnd(slots, 0);
    var m := |Used(slots, 0)|;
    assert INVALID_OFFSET == -842150451;
    assert BranchesEnd(slots, m);
    BranchesEndOnce(slots, n, m);
  }
}
