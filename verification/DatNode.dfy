/** A directory node: searching its entries for an id, and reading the node from
    its bytes. */
module DatNode {
  import opened Wrappers
  import opened Bytes
  import opened DatChain

  datatype Entry = Entry(flags: Word, version: Word, id: Dword, offset: int, size: Dword,
                         rawDate: Dword, iteration: int)

  datatype Node = Node(offset: int, branches: seq<int>, files: seq<Entry>) {
    predicate IsLeaf() {
      branches == []
    }

    /** Child `index`, or 0 past the end of the branch list. */
    function Child(index: nat): int {
      if index < |branches| then branches[index] else 0
    }
  }

  const MAX_BRANCHES := 62
  const MAX_FILES := 61
  const ENTRY_SIZE := 24
  const COUNT_AT := MAX_BRANCHES * 4
  const FILES_AT := COUNT_AT + 4
  const DISK_SIZE := FILES_AT + MAX_FILES * ENTRY_SIZE

  /** The fill pattern of unused memory, as a signed offset. */
  const INVALID_OFFSET := Signed(0xCDCD_CDCD)

  predicate IsValidOffset(offset: int) {
    offset != 0 && offset != INVALID_OFFSET
  }

  // ---- Search -----------------------------------------------------------------

  datatype Probe = Found(index: nat) | Missing(child: nat)

  /** The binary search from `left` to `right`, `i` probed last: the last probe
      decides the side, and an empty node probes an id of 0. */
  function SearchBetween(files: seq<Entry>, id: int, left: nat, right: int, i: nat): Probe
    requires -1 <= right < |files| && left <= right + 1
    decreases right + 1 - left
  {
    if left <= right then
      var mid := (left + right) / 2;
      if id == files[mid].id then Found(mid)
      else if id < files[mid].id then SearchBetween(files, id, left, mid - 1, mid)
      else SearchBetween(files, id, mid + 1, right, mid)
    else
      var probed := if i < |files| then files[i].id else 0;
      Missing(if id > probed then i + 1 else i)
  }

  function Search(files: seq<Entry>, id: int): Probe {
    SearchBetween(files, id, 0, |files| - 1, 0)
  }

  method SearchNode(files: seq<Entry>, id: int) returns (r: Probe)
    ensures r == Search(files, id)
  {
    var left, right, i := 0, |files| - 1, 0;
    while left <= right
      invariant 0 <= left <= right + 1 <= |files| && 0 <= i
      invariant Search(files, id) == SearchBetween(files, id, left, right, i)
      decreases right + 1 - left
    {
      i := (left + right) / 2;
      var current := files[i].id;
      if id == current {
        return Found(i);
      } else if id < current {
        right := i - 1;
      } else {
        left := i + 1;
      }
    }
    var probed := if i < |files| then files[i].id else 0;
    var child := i;
    if id > probed {
      child := child + 1;
    }
    r := Missing(child);
  }

  predicate Increasing(files: seq<Entry>) {
    forall i, j | 0 <= i < j < |files| :: files[i].id < files[j].id
  }

  predicate AllBelow(files: seq<Entry>, id: int, n: int) {
    n <= |files| && forall k | 0 <= k < n :: files[k].id < id
  }

  predicate AllAbove(files: seq<Entry>, id: int, n: int) {
    0 <= n && forall k | n <= k < |files| :: id < files[k].id
  }

  /** `n` of the entries have a smaller id, and they come first. */
  predicate IsLowerBound(files: seq<Entry>, id: int, n: nat) {
    AllBelow(files, id, n) && AllAbove(files, id, n)
  }

  /** One probe of a sorted node settles everything on its side. */
  lemma ProbeSettlesSide(files: seq<Entry>, id: int, mid: nat)
    requires Increasing(files) && mid < |files|
    ensures files[mid].id < id ==> AllBelow(files, id, mid + 1)
    ensures id < files[mid].id ==> AllAbove(files, id, mid)
  {
  }

  /** Once nothing is left between, the last probe is beside the bound. */
  lemma LastProbeFindsBound(files: seq<Entry>, id: int, left: nat, i: nat)
    requires AllBelow(files, id, left) && AllAbove(files, id, left)
    requires i < |files| && (i + 1 == left || i == left)
    ensures IsLowerBound(files, id, if id > files[i].id then i + 1 else i)
  {
  }

  lemma {:induction false} SearchBetweenDecides(files: seq<Entry>, id: int, left: nat, right: int, i: nat)
    requires Increasing(files) && -1 <= right < |files| && left <= right + 1
    requires AllBelow(files, id, left) && AllAbove(files, id, right + 1)
    requires left > right ==> i < |files| && (i + 1 == left || i == left)
    ensures
      match SearchBetween(files, id, left, right, i)
      case Found(index) => index < |files| && files[index].id == id
      case Missing(child) => IsLowerBound(files, id, child)
    decreases right + 1 - left
  {
    if left <= right {
      var mid := (left + right) / 2;
      assert left <= mid <= right;
      ProbeSettlesSide(files, id, mid);
      if id < files[mid].id {
        SearchBetweenDecides(files, id, left, mid - 1, mid);
      } else if id > files[mid].id {
        SearchBetweenDecides(files, id, mid + 1, right, mid);
      }
    } else {
      LastProbeFindsBound(files, id, left, i);
    }
  }

  /** In a sorted node with entries the search finds an id it holds and misses
      at the lower bound of one it does not. */
  lemma SearchDecides(files: seq<Entry>, id: int)
    requires Increasing(files) && files != []
    ensures
      match Search(files, id)
      case Found(index) => index < |files| && files[index].id == id
      case Missing(child) => IsLowerBound(files, id, child)
  {
    SearchBetweenDecides(files, id, 0, |files| - 1, 0);
  }

  /** An empty node misses past its first child for every id but 0, where the
      walk would go down the first. */
  lemma EmptySearchSkipsChildZero(id: nat)
    ensures Search([], id) == Missing(if id > 0 then 1 else 0)
  {
  }

  // ---- Bytes -----------------------------------------------------------------------

  /** The used branch slots: the run before the first zero, fill pattern or
      repeated offset. */
  function Used(slots: seq<int>, last: int): seq<int> {
    if slots == [] || !IsValidOffset(slots[0]) || slots[0] == last then []
    else [slots[0]] + Used(slots[1..], slots[0])
  }

  /** An inner node with entries has one more child than entries. */
  function Resized(branches: seq<int>, count: nat): seq<int> {
    if branches == [] || count == 0 then branches
    else if |branches| > count then branches[..count + 1]
    else branches + seq(count + 1 - |branches|, _ => 0)
  }

  predicate Filled(data: seq<Byte>, count: nat) {
    FILES_AT + count * ENTRY_SIZE <= |data|
  }

  function SlotsOf(data: seq<Byte>): seq<int>
    requires FILES_AT <= |data|
  {
    seq(MAX_BRANCHES, i requires 0 <= i < MAX_BRANCHES => Int32At(data, 4 * i))
  }

  function EntryAt(data: seq<Byte>, at: nat): Entry
    requires at + ENTRY_SIZE <= |data|
  {
    Entry(WordAt(data, at), WordAt(data, at + 2), DwordAt(data, at + 4), Int32At(data, at + 8),
          DwordAt(data, at + 12), DwordAt(data, at + 16), Int32At(data, at + 20))
  }

  function EntriesOf(data: seq<Byte>, count: nat): seq<Entry>
    requires Filled(data, count)
  {
    seq(count, i requires 0 <= i < count => EntryAt(data, FILES_AT + i * ENTRY_SIZE))
  }

  function Unpack(offset: int, data: seq<Byte>): Result<Node, DatError> {
    if |data| < FILES_AT then Err(UnexpectedEnd)
    else
      var count := Int32At(data, COUNT_AT);
      if !(0 <= count <= MAX_FILES) then Err(BadNodeEntryCount(offset, count))
      else if !Filled(data, count) then Err(UnexpectedEnd)
      else Ok(Node(offset, Resized(Used(SlotsOf(data), 0), count), EntriesOf(data, count)))
  }

  method ReadBranches(data: seq<Byte>) returns (branches: seq<int>)
    requires FILES_AT <= |data|
    ensures branches == Used(SlotsOf(data), 0)
  {
    branches := [];
    var foundEnd := false;
    var lastBranch := 0;
    ghost var slots := SlotsOf(data);
    for i := 0 to MAX_BRANCHES
      invariant Used(slots, 0) == branches + (if foundEnd then [] else Used(slots[i..], lastBranch))
    {
      var branch := Int32At(data, 4 * i);
      assert slots[i] == branch && slots[i..][1..] == slots[i + 1..];
      if branch == 0 || branch == lastBranch || branch == INVALID_OFFSET {
        foundEnd := true;
      }
      if !foundEnd {
        lastBranch := branch;
        branches := branches + [branch];
      }
    }
  }

  method UnpackNode(offset: int, data: seq<Byte>) returns (r: Result<Node, DatError>)
    ensures r == Unpack(offset, data)
  {
    if |data| < FILES_AT {
      return Err(UnexpectedEnd);
    }
    var count := Int32At(data, COUNT_AT);
    if !(0 <= count <= MAX_FILES) {
      return Err(BadNodeEntryCount(offset, count));
    }
    var branches := ReadBranches(data);
    var files: seq<Entry> := [];
    for i := 0 to count
      invariant Filled(data, i) && files == EntriesOf(data, i)
    {
      if |data| < FILES_AT + (i + 1) * ENTRY_SIZE {
        return Err(UnexpectedEnd);
      }
      files := files + [EntryAt(data, FILES_AT + i * ENTRY_SIZE)];
    }
    if branches != [] && count > 0 {
      if |branches| > count {
        branches := branches[..count + 1];
      } else {
        branches := branches + seq(count + 1 - |branches|, _ => 0);
      }
    }
    r := Ok(Node(offset, branches, files));
  }

  // ---- What a node is stored as -------------------------------------------------------

  function SlotBytes(slots: seq<int>): (r: seq<Byte>)
    requires forall s | s in slots :: IsInt32(s)
    ensures |r| == 4 * |slots|
  {
    if slots == [] then [] else PutDword(Unsigned(slots[0])) + SlotBytes(slots[1..])
  }

  predicate Storable(e: Entry) {
    IsInt32(e.offset) && IsInt32(e.iteration)
  }

  function EntryBytes(e: Entry): (r: seq<Byte>)
    requires Storable(e)
    ensures |r| == ENTRY_SIZE
  {
    PutWord(e.flags) + PutWord(e.version) + PutDword(e.id) + PutDword(Unsigned(e.offset))
    + PutDword(e.size) + PutDword(e.rawDate) + PutDword(Unsigned(e.iteration))
  }

  function FilesBytes(files: seq<Entry>): (r: seq<Byte>)
    requires forall e | e in files :: Storable(e)
    ensures |r| == ENTRY_SIZE * |files|
  {
    if files == [] then [] else EntryBytes(files[0]) + FilesBytes(files[1..])
  }

  function NodeBytes(slots: seq<int>, files: seq<Entry>): seq<Byte>
    requires |slots| == MAX_BRANCHES && forall s | s in slots :: IsInt32(s)
    requires |files| <= MAX_FILES && forall e | e in files :: Storable(e)
  {
    SlotBytes(slots) + PutDword(Unsigned(|files|)) + FilesBytes(files)
  }

  lemma Int32ReadsBack(pre: seq<Byte>, n: int, post: seq<Byte>)
    requires IsInt32(n)
    ensures Int32At(pre + PutDword(Unsigned(n)) + post, |pre|) == n
  {
    DwordReadsBack(pre, Unsigned(n), post);
  }

  lemma {:induction false} SlotReadsBack(slots: seq<int>, i: nat, pre: seq<Byte>, post: seq<Byte>)
    requires i < |slots| && forall s | s in slots :: IsInt32(s)
    ensures Int32At(pre + SlotBytes(slots) + post, |pre| + 4 * i) == slots[i]
  {
    var head, tail := PutDword(Unsigned(slots[0])), SlotBytes(slots[1..]);
    if i == 0 {
      assert pre + SlotBytes(slots) + post == pre + head + (tail + post);
      Int32ReadsBack(pre, slots[0], tail + post);
    } else {
      assert pre + SlotBytes(slots) + post == (pre + head) + tail + post;
      SlotReadsBack(slots[1..], i - 1, pre + head, post);
    }
  }

  /** A number read inside a longer run of bytes. */
  lemma ReadsInside(b: seq<Byte>, pre: seq<Byte>, post: seq<Byte>, at: nat)
    requires at + 4 <= |b|
    ensures DwordAt(pre + b + post, |pre| + at) == DwordAt(b, at)
    ensures WordAt(pre + b + post, |pre| + at) == WordAt(b, at)
  {
    var all := pre + b + post;
    assert all[|pre| + at] == b[at] && all[|pre| + at + 1] == b[at + 1];
    assert all[|pre| + at + 2] == b[at + 2] && all[|pre| + at + 3] == b[at + 3];
  }

  lemma EntryReadsInside(b: seq<Byte>, pre: seq<Byte>, post: seq<Byte>)
    requires |b| == ENTRY_SIZE
    ensures EntryAt(pre + b + post, |pre|) == EntryAt(b, 0)
  {
    ReadsInside(b, pre, post, 0);
    ReadsInside(b, pre, post, 2);
    ReadsInside(b, pre, post, 4);
    ReadsInside(b, pre, post, 8);
    ReadsInside(b, pre, post, 12);
    ReadsInside(b, pre, post, 16);
    ReadsInside(b, pre, post, 20);
  }

  lemma EntryReadsBack(e: Entry)
    requires Storable(e)
    ensures EntryAt(EntryBytes(e), 0) == e
  {
    var a, b, c, d := PutWord(e.flags), PutWord(e.version), PutDword(e.id), PutDword(Unsigned(e.offset));
    var f, g, h := PutDword(e.size), PutDword(e.rawDate), PutDword(Unsigned(e.iteration));
    var all := EntryBytes(e);
    assert all == [] + a + (b + c + d + f + g + h);
    WordReadsBack([], e.flags, b + c + d + f + g + h);
    assert all == a + b + (c + d + f + g + h);
    WordReadsBack(a, e.version, c + d + f + g + h);
    assert all == (a + b) + c + (d + f + g + h);
    DwordReadsBack(a + b, e.id, d + f + g + h);
    assert all == (a + b + c) + d + (f + g + h);
    Int32ReadsBack(a + b + c, e.offset, f + g + h);
    assert all == (a + b + c + d) + f + (g + h);
    DwordReadsBack(a + b + c + d, e.size, g + h);
    assert all == (a + b + c + d + f) + g + h;
    DwordReadsBack(a + b + c + d + f, e.rawDate, h);
    assert all == (a + b + c + d + f + g) + h + [];
    Int32ReadsBack(a + b + c + d + f + g, e.iteration, []);
  }

  lemma {:induction false} FileReadsBack(files: seq<Entry>, i: nat, pre: seq<Byte>, post: seq<Byte>)
    requires i < |files| && forall e | e in files :: Storable(e)
    ensures EntryAt(pre + FilesBytes(files) + post, |pre| + i * ENTRY_SIZE) == files[i]
  {
    var head, tail := EntryBytes(files[0]), FilesBytes(files[1..]);
    if i == 0 {
      assert pre + FilesBytes(files) + post == pre + head + (tail + post);
      EntryReadsInside(head, pre, tail + post);
      EntryReadsBack(files[0]);
    } else {
      assert pre + FilesBytes(files) + post == (pre + head) + tail + post;
      FileReadsBack(files[1..], i - 1, pre + head, post);
    }
  }

  lemma SlotsReadBack(slots: seq<int>, post: seq<Byte>)
    requires |slots| == MAX_BRANCHES && (forall s | s in slots :: IsInt32(s)) && |post| >= 4
    ensures SlotsOf(SlotBytes(slots) + post) == slots
  {
    var data := SlotBytes(slots) + post;
    assert data == [] + SlotBytes(slots) + post;
    forall i | 0 <= i < MAX_BRANCHES ensures SlotsOf(data)[i] == slots[i] {
      SlotReadsBack(slots, i, [], post);
    }
  }

  lemma EntriesGrow(data: seq<Byte>, n: nat)
    requires Filled(data, n + 1)
    ensures EntriesOf(data, n + 1) == EntriesOf(data, n) + [EntryAt(data, FILES_AT + n * ENTRY_SIZE)]
  {
  }

  lemma {:induction false} FilesReadBack(pre: seq<Byte>, files: seq<Entry>, post: seq<Byte>, n: nat)
    requires |pre| == FILES_AT && n <= |files| && forall e | e in files :: Storable(e)
    ensures EntriesOf(pre + FilesBytes(files) + post, n) == files[..n]
  {
    if n > 0 {
      FilesReadBack(pre, files, post, n - 1);
      EntriesGrow(pre + FilesBytes(files) + post, n - 1);
      FileReadsBack(files, n - 1, pre, post);
      assert files[..n] == files[..n - 1] + [files[n - 1]];
    }
  }

  lemma UnpackStep(offset: int, data: seq<Byte>, slots: seq<int>, files: seq<Entry>)
    requires |files| <= MAX_FILES && Filled(data, |files|)
    requires SlotsOf(data) == slots && Int32At(data, COUNT_AT) == |files| && EntriesOf(data, |files|) == files
    ensures Unpack(offset, data) == Ok(Node(offset, Resized(Used(slots, 0), |files|), files))
  {
  }

  lemma Reassociate(a: seq<Byte>, b: seq<Byte>, c: seq<Byte>, d: seq<Byte>)
    ensures a + b + c + d == a + (b + c + d)
    ensures a + b + c + d == a + b + (c + d)
  {
  }

  /** A stored node unpacks to its used branches, sized to its entries, and its
      entries; what the last block holds after them is no matter. */
  lemma UnpackReadsBack(offset: int, slots: seq<int>, files: seq<Entry>, post: seq<Byte>)
    requires |slots| == MAX_BRANCHES && forall s | s in slots :: IsInt32(s)
    requires |files| <= MAX_FILES && forall e | e in files :: Storable(e)
    ensures Unpack(offset, NodeBytes(slots, files) + post)
      == Ok(Node(offset, Resized(Used(slots, 0), |files|), files))
  {
    var s, n, f := SlotBytes(slots), PutDword(Unsigned(|files|)), FilesBytes(files);
    var data := s + n + f + post;
    Reassociate(s, n, f, post);
    Int32ReadsBack(s, |files|, f + post);
    SlotsReadBack(slots, n + f + post);
    FilesReadBack(s + n, files, post, |files|);
    assert files[..|files|] == files;
    UnpackStep(offset, data, slots, files);
  }
}
