/** A read that is not counted: the high-resolution directory has a root that can be
    read and a child that cannot, and the object is in neither cache. */
module DatWitness {
  import opened Wrappers
  import opened Bytes
  import opened DatChain
  import opened DatNode
  import opened DatTree
  import opened DatReader
  import opened Recency
  import opened DatObjects

  // ---- A directory on a disk -----------------------------------------------------------

  const ROOT := 4
  const BLOCK_SIZE := 4096
  /** Far past the end of the file. */
  const FAR := 0x7000_0000

  function Zeros(n: nat): (r: seq<Byte>)
    ensures |r| == n
  {
    seq(n, _ => 0)
  }

  /** One block at `ROOT` that holds `data` and points nowhere. */
  function DatOf(data: seq<Byte>): (dat: Dat)
    ensures dat.Valid()
  {
    Dat(Zeros(ROOT + 4) + data, BLOCK_SIZE, ROOT)
  }

  lemma OneBlockIsLaid(data: seq<Byte>)
    requires 0 < |data| <= BLOCK_SIZE - 4
    ensures ReadChain(DatOf(data), ROOT, |data|) == Ok(data)
  {
    var dat := DatOf(data);
    assert dat.Payload(ROOT, |data|) == data;
    var offsets: seq<int> := [ROOT];
    assert data[|data|..] == [] && offsets[1..] == [] && data[..|data|] == data;
    assert Laid(dat, offsets, data);
    ReadsExactlyWhatIsLaid(dat, ROOT, data);
  }

  /** Beyond the file nothing can be read. */
  lemma FarIsUnreadable(data: seq<Byte>)
    requires |data| <= BLOCK_SIZE
    ensures ReadNode(DatOf(data), FAR) == Err(BlockOutOfRange(FAR))
  {
  }

  function RootEntry(): Entry {
    Entry(0, 0, 100, 0, 0, 0, 0)
  }

  function RootSlots(): (r: seq<int>)
    ensures |r| == MAX_BRANCHES && forall s | s in r :: IsInt32(s)
  {
    [FAR] + seq(MAX_BRANCHES - 1, _ => 0)
  }

  /** A root with one entry and one branch, which leads out of the file. */
  function RootNode(): Node {
    Node(ROOT, [FAR, 0], [RootEntry()])
  }

  function RootBytes(): (r: seq<Byte>)
    ensures |r| == DISK_SIZE
  {
    NodeSize(RootSlots(), [RootEntry()]);
    var node := NodeBytes(RootSlots(), [RootEntry()]);
    node + Zeros(DISK_SIZE - |node|)
  }

  lemma NodeSize(slots: seq<int>, files: seq<Entry>)
    requires |slots| == MAX_BRANCHES && forall s | s in slots :: IsInt32(s)
    requires |files| <= MAX_FILES && forall e | e in files :: Storable(e)
    ensures |NodeBytes(slots, files)| == FILES_AT + ENTRY_SIZE * |files|
  {
  }

  lemma RootIsReadable()
    ensures ReadNode(DatOf(RootBytes()), ROOT) == Ok(RootNode())
  {
    var node := NodeBytes(RootSlots(), [RootEntry()]);
    NodeSize(RootSlots(), [RootEntry()]);
    OneBlockIsLaid(RootBytes());
    UnpackReadsBack(ROOT, RootSlots(), [RootEntry()], Zeros(DISK_SIZE - |node|));
    RootBranches();
  }

  lemma RootBranches()
    ensures Resized(Used(RootSlots(), 0), 1) == [FAR, 0]
  {
    var slots := RootSlots();
    assert slots[0] == FAR && slots[1..][0] == 0;
    assert Used(slots[1..], FAR) == [];
    assert Used(slots, 0) == [FAR];
    assert [FAR] + seq(1, _ => 0) == [FAR, 0];
  }

  function RootTree(): Tree {
    Whole(RootNode(), [Unreadable(BlockOutOfRange(FAR)), Absent(ROOT, 0)])
  }

  /** A dat with no directory. */
  function Bare(): File {
    File(Dat([], BLOCK_SIZE, 0), Absent(0, 0))
  }

  function Broken(): File {
    File(DatOf(RootBytes()), RootTree())
  }

  lemma RootStands(dat: Dat)
    requires dat.Valid() && ReadNode(dat, ROOT) == Ok(RootNode()) && ReadNode(dat, FAR) == Err(BlockOutOfRange(FAR))
    ensures Stands(dat, 0, ROOT, RootTree())
  {
    var t := RootTree();
    assert t.node.Child(0) == FAR && t.node.Child(1) == 0;
    assert Stands(dat, ROOT, FAR, t.kids[0]) && Stands(dat, ROOT, 0, t.kids[1]);
  }

  lemma RootIsShaped()
    ensures WellShaped(RootTree()) && Searchable(RootTree())
  {
    var t := RootTree();
    assert |t.kids| == 2 && WellShaped(t.kids[0]) && WellShaped(t.kids[1]);
    assert Searchable(t.kids[0]) && Searchable(t.kids[1]);
  }

  lemma BrokenIsOpen()
    ensures Opened(Broken().dat, Broken().tree)
  {
    RootIsReadable();
    FarIsUnreadable(RootBytes());
    RootStands(DatOf(RootBytes()));
    RootIsShaped();
  }

  lemma BareIsOpen()
    ensures Opened(Bare().dat, Bare().tree)
  {
  }

  lemma ChildIsNotFound()
    requires WellShaped(RootTree()) && Searchable(RootTree())
    ensures Find(RootTree(), 5) == Err(BlockOutOfRange(FAR))
  {
    var files := RootNode().files;
    assert Search(files, 5) == SearchBetween(files, 5, 0, 0, 0);
    assert SearchBetween(files, 5, 0, 0, 0) == SearchBetween(files, 5, 0, -1, 0) == Missing(0);
  }

  // ---- The read ---------------------------------------------------------------------------

  function NoneHeld<O>(): Held<O> {
    var none := CacheState([], 0, 0);
    Held.Held(none, none, none, none)
  }

  /** Whatever bytes decode to and whatever the caches may hold: this read is of an
      object no cache holds, fails, and counts neither a hit nor a miss. */
  lemma BrokenDirectoryGoesUncounted<O>(decode: (Key, seq<Byte>) -> Option<O>, estimate: O -> nat, sizes: Sizes, tag: nat)
    ensures
      var dats := Dats(Bare(), Some(Broken()), Bare(), Bare(), decode, estimate);
      var key := Key(ObjectType(tag, PortalType), 5);
      && dats.Valid() && Sound(dats, sizes, NoneHeld()) && GoesUncounted(dats, NoneHeld(), key)
      && Cached(dats, sizes, NoneHeld(), key) == (NoneHeld(), Err(BlockOutOfRange(FAR)))
      && Cached(dats, sizes, NoneHeld(), key).0.Counted() == NoneHeld<O>().Counted()
  {
    var dats := Dats(Bare(), Some(Broken()), Bare(), Bare(), decode, estimate);
    BrokenIsOpen();
    BareIsOpen();
    RootIsShaped();
    EmptyIsSound(dats, sizes);
    ChildIsNotFound();
    assert PortalPick(dats, 5) == Err(BlockOutOfRange(FAR));
  }
}
