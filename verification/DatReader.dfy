/** One open dat: lookups through the cache of directory nodes, and files read
    by id. */
module DatReader {
  import opened Wrappers
  import opened Bytes
  import opened DatChain
  import opened DatNode
  import opened DatTree
  import opened Recency
  import opened Lru

  ghost predicate Opened(dat: Dat, t: Tree) {
    dat.Valid() && Stands(dat, 0, dat.rootBlock, t) && WellShaped(t) && Searchable(t)
  }

  // ---- What the dat answers -----------------------------------------------------

  const FLAG_COMPRESSED := 1

  /** The lowest bit of the flags. */
  predicate IsCompressed(e: Entry) {
    e.flags % 2 == FLAG_COMPRESSED
  }

  function ReadEntry(dat: Dat, e: Entry): Result<seq<Byte>, DatError>
    requires dat.Valid()
  {
    if IsCompressed(e) then Err(Compressed(e.id))
    else if e.size > |dat.bytes| then Err(EntryTooLarge(e.id, e.size))
    else ReadChain(dat, e.offset, e.size)
  }

  /** The bytes of file `id`, if the directory has it. */
  function Contents(dat: Dat, t: Tree, id: nat): Result<Option<seq<Byte>>, DatError>
    requires dat.Valid() && WellShaped(t) && Searchable(t)
  {
    match Find(t, id)
    case Err(e) => Err(e)
    case Ok(None) => Ok(None)
    case Ok(Some(entry)) =>
      match ReadEntry(dat, entry)
      case Err(e) => Err(e)
      case Ok(bytes) => Ok(Some(bytes))
  }

  // ---- The cache of nodes ----------------------------------------------------------

  /** Every node held is the one its offset holds. */
  ghost predicate Truthful(dat: Dat, items: seq<Item<int, Node>>)
    requires dat.Valid()
  {
    forall item | item in items :: ReadNode(dat, item.key) == Ok(item.value)
  }

  /** Every node is charged 1, so its count is its size. */
  predicate Unit(items: seq<Item<int, Node>>) {
    forall item | item in items :: item.size == 1
  }

  lemma {:induction false} UnitSize(items: seq<Item<int, Node>>)
    requires Unit(items)
    ensures TotalSize(items) == |items|
  {
    if items != [] {
      assert forall item | item in items[1..] :: item in items;
      UnitSize(items[1..]);
    }
  }

  lemma ReadNodeHasOffset(dat: Dat, offset: int)
    requires dat.Valid()
    ensures var r := ReadNode(dat, offset); r.Ok? ==> r.value.offset == offset
  {
  }

  lemma LookupIsHeld<K, V>(items: seq<Item<K, V>>, key: K)
    ensures Lookup(items, key).Some? ==>
      exists item :: item in items && item.key == key && item.value == Lookup(items, key).value
  {
    var i := IndexOf(items, key);
    if i < |items| {
      assert items[i] in items;
    }
  }

  lemma TouchedHoldsSame<K, V>(items: seq<Item<K, V>>, key: K)
    ensures forall item :: item in Touched(items, key) <==> item in items
  {
    TouchedKeepsItems(items, key);
    forall item ensures item in Touched(items, key) <==> item in items {
      assert item in multiset(Touched(items, key)) <==> item in multiset(items);
    }
  }

  lemma OfferedHolds<K, V>(items: seq<Item<K, V>>, limits: Limits, item: Item<K, V>)
    ensures forall kept :: kept in Offered(items, limits, item).0 ==> kept in items || kept == item
  {
    var after := Offered(items, limits, item).0;
    forall kept | kept in after ensures kept in items || kept == item {
      var i :| 0 <= i < |after| && after[i] == kept;
      OfferedHoldsNothingElse(items, limits, item, i);
    }
  }

  class NodeCache {
    /** How many nodes are kept; 0 keeps none. */
    const limit: nat
    const lru: Lru<int, Node>

    function Limits(): Limits {
      Recency.Limits(limit, limit)
    }

    ghost predicate Valid()
      reads this, lru
    {
      lru.Valid() && Unit(lru.items) && Within(lru.items, Limits())
    }

    constructor (limit: nat)
      ensures Valid() && fresh(lru) && lru.items == [] && this.limit == limit
    {
      this.limit := limit;
      lru := new Lru();
    }

    method Get(offset: int) returns (found: Option<Node>)
      requires Valid()
      modifies lru
      ensures Valid()
      ensures found == Lookup(old(lru.items), offset) && lru.items == Touched(old(lru.items), offset)
    {
      found := lru.Touch(offset);
      TouchedHoldsSame(old(lru.items), offset);
      TouchedKeepsItems(old(lru.items), offset);
      TouchedKeepsDistinct(old(lru.items), offset);
    }

    /** Keep `node` unless one is held for its offset; the one to use. */
    method Insert(node: Node) returns (used: Node)
      requires Valid()
      modifies lru
      ensures Valid()
      ensures (lru.items, used) == Offered(old(lru.items), Limits(), Item(node.offset, node, 1))
    {
      ghost var before := lru.items;
      OfferedStaysWithin(before, Limits(), Item(node.offset, node, 1));
      OfferedHolds(before, Limits(), Item(node.offset, node, 1));
      if limit == 0 {
        assert before == [];
        return node;
      }
      UnheldIsUnlisted(lru.entries, lru.items, node.offset);
      var existing := lru.Touch(node.offset);
      if existing.Some? {
        return existing.value;
      }
      EvictToLimit();
      lru.Insert(node.offset, node, 1);
      used := node;
    }

    method EvictToLimit()
      requires Valid() && limit > 0
      modifies lru
      ensures lru.Valid() && lru.items == MakeRoom(old(lru.items), Limits(), 1)
      ensures forall key | key in lru.entries :: key in old(lru.entries)
    {
      var more := true;
      ListedCount(lru.entries, lru.items);
      UnitSize(lru.items);
      while more && |lru.entries| >= limit
        invariant lru.Valid() && |lru.entries| == |lru.items| && Unit(lru.items)
        invariant !more ==> lru.items == []
        invariant TotalSize(lru.items) == |lru.items|
        invariant MakeRoom(lru.items, Limits(), 1) == MakeRoom(old(lru.items), Limits(), 1)
        invariant forall key | key in lru.entries :: key in old(lru.entries)
        decreases more, |lru.items|
      {
        more := lru.EvictOldest();
        ListedCount(lru.entries, lru.items);
        UnitSize(lru.items);
      }
    }
  }

  // ---- An open dat ------------------------------------------------------------------

  class DatFile {
    const dat: Dat
    /** The root node, kept apart; none when the header names no root block. */
    const root: Option<Node>
    const nodes: NodeCache

    ghost predicate Valid()
      reads this, nodes, nodes.lru
    {
      && dat.Valid() && nodes.Valid() && Truthful(dat, nodes.lru.items)
      && (root.Some? ==> ReadNode(dat, dat.rootBlock) == Ok(root.value))
    }

    constructor (dat: Dat, root: Option<Node>, limit: nat)
      requires dat.Valid() && (root.Some? ==> ReadNode(dat, dat.rootBlock) == Ok(root.value))
      ensures Valid() && this.dat == dat && fresh(nodes.lru)
    {
      this.dat, this.root := dat, root;
      nodes := new NodeCache(limit);
    }

    /** The node at `offset`, wherever it comes from, is the one the file holds
        there; a node that does not decode is not kept. */
    method CachedNode(offset: int) returns (r: Result<Node, DatError>)
      requires Valid()
      modifies nodes.lru
      ensures Valid() && r == ReadNode(dat, offset)
    {
      ReadNodeHasOffset(dat, offset);
      ReadNodeHasOffset(dat, dat.rootBlock);
      if root.Some? && root.value.offset == offset {
        return Ok(root.value);
      }
      LookupIsHeld(nodes.lru.items, offset);
      TouchedHoldsSame(nodes.lru.items, offset);
      var found := nodes.Get(offset);
      if found.Some? {
        return Ok(found.value);
      }
      var read := ReadNode(dat, offset);
      if read.Err? {
        return read;
      }
      LookupIsHeld(nodes.lru.items, offset);
      OfferedHolds(nodes.lru.items, nodes.Limits(), Item(offset, read.value, 1));
      TouchedHoldsSame(nodes.lru.items, offset);
      var used := nodes.Insert(read.value);
      r := Ok(used);
    }

    /** A lookup through the cache answers what the directory answers, whatever
        the cache holds. */
    method FindEntry(id: int, ghost t: Tree) returns (r: Result<Option<Entry>, DatError>)
      requires Valid() && Opened(dat, t)
      modifies nodes.lru
      ensures Valid() && r == Find(t, id)
    {
      var block := dat.rootBlock;
      ghost var under, parent := t, 0;
      while IsValidOffset(block)
        invariant Valid() && Stands(dat, parent, block, under) && WellShaped(under) && Searchable(under)
        invariant Find(t, id) == Find(under, id)
        decreases under
      {
        var node := CachedNode(block);
        if node.Err? {
          return Err(node.error);
        }
        FoundIsInside(node.value.files, id);
        var probe := SearchNode(node.value.files, id);
        match probe
        case Found(index) =>
          return Ok(Some(node.value.files[index]));
        case Missing(child) =>
          if node.value.IsLeaf() {
            return Ok(None);
          }
          SearchStaysInside(node.value.files, id);
          block := node.value.Child(child);
          parent, under := node.value.offset, under.kids[child];
      }
      r := Ok(None);
    }

    method GetBytes(id: nat, ghost t: Tree) returns (r: Result<Option<seq<Byte>>, DatError>)
      requires Valid() && Opened(dat, t)
      modifies nodes.lru
      ensures Valid() && r == Contents(dat, t, id)
    {
      var found := FindEntry(id, t);
      if found.Err? {
        return Err(found.error);
      }
      if found.value.None? {
        return Ok(None);
      }
      var entry := found.value.value;
      if IsCompressed(entry) {
        return Err(Compressed(entry.id));
      }
      if entry.size > |dat.bytes| {
        return Err(EntryTooLarge(entry.id, entry.size));
      }
      var bytes := GatherChain(dat, entry.offset, entry.size);
      if bytes.Err? {
        return Err(bytes.error);
      }
      r := Ok(Some(bytes.value));
    }
  }
}
