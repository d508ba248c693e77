/** The object caches as they run: each refines the plain list, and a read
    through the four of them does what `Cached` says. */
module DatCaches {
  import opened Wrappers
  import opened Bytes
  import opened DatChain
  import opened DatNode
  import opened DatTree
  import opened DatReader
  import opened DatObjects
  import opened Recency
  import opened Lru

  class ObjectCache<O> {
    const entryLimit: nat
    const byteLimit: nat
    const lru: Lru<Key, O>
    var hits: nat
    var misses: nat

    ghost predicate Valid()
      reads this, lru
    {
      lru.Valid() && entryLimit >= 1 && byteLimit >= 1
    }

    ghost function State(): CacheState<O>
      reads this, lru
    {
      CacheState(lru.items, hits, misses)
    }

    function Limits(): Recency.Limits {
      Recency.Limits(entryLimit, byteLimit)
    }

    /** A limit of 0 is taken as 1. */
    constructor (limits: Recency.Limits)
      ensures Valid() && fresh(lru) && State() == CacheState([], 0, 0)
      ensures Limits() == Recency.Limits(AtLeastOne(limits.entries), AtLeastOne(limits.bytes))
    {
      entryLimit, byteLimit := AtLeastOne(limits.entries), AtLeastOne(limits.bytes);
      lru := new Lru();
      hits, misses := 0, 0;
    }

    method CountHit()
      requires Valid()
      modifies this`hits
      ensures Valid() && hits == old(hits) + 1
    {
      hits := hits + 1;
    }

    method CountMiss()
      requires Valid()
      modifies this`misses
      ensures Valid() && misses == old(misses) + 1
    {
      misses := misses + 1;
    }

    method GetUncounted(key: Key) returns (found: Option<O>)
      requires Valid()
      modifies lru
      ensures Valid() && found == Lookup(old(lru.items), key) && lru.items == Touched(old(lru.items), key)
    {
      found := lru.Touch(key);
    }

    method Get(key: Key) returns (found: Option<O>)
      requires Valid()
      modifies this, lru
      ensures Valid() && found == Lookup(old(lru.items), key)
      ensures State() == if found.Some? then old(State()).Hit(key) else old(State()).Miss()
    {
      found := GetUncounted(key);
      if found.Some? {
        CountHit();
      } else {
        CountMiss();
      }
    }

    /** Ask this cache on the way: a hit is counted, a miss is not. */
    method Ask(key: Key) returns (found: Option<O>)
      requires Valid()
      modifies this, lru
      ensures Valid() && found == Lookup(old(lru.items), key)
      ensures State() == if found.Some? then old(State()).Hit(key) else old(State())
    {
      found := GetUncounted(key);
      if found.Some? {
        CountHit();
      }
    }

    /** Publish `candidate` unless one is held; the one to use. */
    method GetOrAdd(key: Key, candidate: O, estimate: nat) returns (used: O)
      requires Valid()
      modifies lru
      ensures Valid()
      ensures
        var item := Item(key, candidate, AtLeastOne(estimate));
        (lru.items, used) == Offered(old(lru.items), Limits(), item)
    {
      var size := AtLeastOne(estimate);
      UnheldIsUnlisted(lru.entries, lru.items, key);
      var existing := lru.Touch(key);
      if existing.Some? {
        return existing.value;
      }
      if size > byteLimit {
        return candidate;
      }
      EvictForRoom(size);
      lru.Insert(key, candidate, size);
      used := candidate;
    }

    method EvictForRoom(size: nat)
      requires Valid() && size <= byteLimit
      modifies lru
      ensures Valid() && lru.items == MakeRoom(old(lru.items), Limits(), size)
      ensures forall key | key in lru.entries :: key in old(lru.entries)
    {
      ListedCount(lru.entries, lru.items);
      while |lru.entries| >= entryLimit || lru.bytes > byteLimit - size
        invariant lru.Valid() && |lru.entries| == |lru.items|
        invariant MakeRoom(lru.items, Limits(), size) == MakeRoom(old(lru.items), Limits(), size)
        invariant forall key | key in lru.entries :: key in old(lru.entries)
        decreases |lru.items|
      {
        var more := lru.EvictOldest();
        if !more {
          break;
        }
        ListedCount(lru.entries, lru.items);
      }
    }
  }

  // ---- One dat and its cache --------------------------------------------------------

  /** `file` is the open file of one of the dats. */
  ghost predicate Opens<O>(dats: Dats<O>, source: DatSource, file: DatFile)
    reads file, file.nodes, file.nodes.lru
  {
    dats.Valid() && dats.FileOf(source).Some? && file.Valid() && file.dat == dats.FileOf(source).value.dat
  }

  method ReadFile<O>(dats: Dats<O>, source: DatSource, file: DatFile, key: Key) returns (r: Answer<O>)
    requires Opens(dats, source, file)
    modifies file.nodes.lru
    ensures Opens(dats, source, file) && r == ReadSource(dats, source, key)
  {
    ghost var t := dats.FileOf(source).value.tree;
    assert Opened(file.dat, t);
    var bytes := file.GetBytes(key.id, t);
    r := Decoded(dats, key, bytes);
  }

  method ReadIntoCache<O>(dats: Dats<O>, source: DatSource, file: DatFile, cache: ObjectCache<O>, key: Key)
    returns (r: Answer<O>)
    requires Opens(dats, source, file) && cache.Valid() && cache.lru as object != file.nodes.lru as object
    modifies file.nodes.lru, cache.lru
    ensures Opens(dats, source, file) && cache.Valid()
    ensures (cache.State(), r) == ReadIntoOne(dats, cache.Limits(), source, old(cache.State()), key)
  {
    r := ReadFile(dats, source, file, key);
    if r.Ok? && r.value.Some? {
      var used := cache.GetOrAdd(key, r.value.value, dats.estimate(r.value.value));
      r := Ok(Some(used));
    }
  }

  method GetFrom<O>(dats: Dats<O>, source: DatSource, file: DatFile, cache: ObjectCache<O>, key: Key)
    returns (r: Answer<O>)
    requires Opens(dats, source, file) && cache.Valid() && cache.lru as object != file.nodes.lru as object
    modifies file.nodes.lru, cache, cache.lru
    ensures Opens(dats, source, file) && cache.Valid()
    ensures (cache.State(), r) == FromOne(dats, cache.Limits(), source, old(cache.State()), key)
  {
    var found := cache.Get(key);
    if found.Some? {
      return Ok(found);
    }
    r := ReadIntoCache(dats, source, file, cache, key);
  }

  method MissAndRead<O>(dats: Dats<O>, source: DatSource, file: DatFile, cache: ObjectCache<O>, key: Key)
    returns (r: Answer<O>)
    requires Opens(dats, source, file) && cache.Valid() && cache.lru as object != file.nodes.lru as object
    modifies file.nodes.lru, cache, cache.lru
    ensures Opens(dats, source, file) && cache.Valid()
    ensures (cache.State(), r) == ReadIntoOne(dats, cache.Limits(), source, old(cache.State()).Miss(), key)
  {
    cache.CountMiss();
    r := ReadIntoCache(dats, source, file, cache, key);
  }

  lemma NeitherHolds<O>(dats: Dats<O>, sizes: Sizes, held: Held<O>, key: Key)
    requires dats.Valid() && Lookup(held.highRes.items, key).None? && Lookup(held.portal.items, key).None?
    ensures CachedPortal(dats, sizes, held, key) ==
      match PortalPick(dats, key.id)
      case Err(e) => (held, Err(e))
      case Ok(HighRes) => ReadInto(dats, sizes, held.With(HighRes, held.highRes.Miss()), HighRes, key)
      case Ok(source) => ReadInto(dats, sizes, held.With(Portal, held.portal.Miss()), Portal, key)
  {
  }

  // ---- The four dats together --------------------------------------------------------

  class CachedDats<O> {
    const dats: Dats<O>
    const portal: DatFile
    const highRes: Option<DatFile>
    const local: DatFile
    const cell: DatFile
    const portalCache: ObjectCache<O>
    const highResCache: ObjectCache<O>
    const localCache: ObjectCache<O>
    const cellCache: ObjectCache<O>

    ghost function Caches(): set<object> {
      {portalCache, highResCache, localCache, cellCache,
       portalCache.lru, highResCache.lru, localCache.lru, cellCache.lru}
    }

    ghost function Files(): set<object> {
      {portal.nodes.lru, local.nodes.lru, cell.nodes.lru}
      + (if highRes.Some? then {highRes.value.nodes.lru} else {})
    }

    ghost predicate FilesApart() {
      && portal.nodes.lru != local.nodes.lru && portal.nodes.lru != cell.nodes.lru && local.nodes.lru != cell.nodes.lru
      && (highRes.Some? ==> highRes.value.nodes.lru !in {portal.nodes.lru, local.nodes.lru, cell.nodes.lru})
    }

    /** The caches and the files share nothing. */
    ghost predicate Apart() {
      && FilesApart()
      && Caches() !! Files()
      && portalCache != highResCache && portalCache != localCache && portalCache != cellCache
      && highResCache != localCache && highResCache != cellCache && localCache != cellCache
      && portalCache.lru != highResCache.lru && portalCache.lru != localCache.lru && portalCache.lru != cellCache.lru
      && highResCache.lru != localCache.lru && highResCache.lru != cellCache.lru && localCache.lru != cellCache.lru
    }

    ghost predicate CachesValid()
      reads Caches()
    {
      portalCache.Valid() && highResCache.Valid() && localCache.Valid() && cellCache.Valid()
    }

    ghost predicate FilesOpen()
      reads portal, portal.nodes, local, local.nodes, cell, cell.nodes, Files()
      reads if highRes.Some? then {highRes.value as object, highRes.value.nodes} else {}
    {
      && Opens(dats, Portal, portal) && Opens(dats, Local, local) && Opens(dats, Cell, cell)
      && (highRes.None? <==> dats.highRes.None?)
      && (highRes.Some? ==> Opens(dats, HighRes, highRes.value))
    }

    ghost predicate Valid()
      reads Caches(), portal, portal.nodes, local, local.nodes, cell, cell.nodes, Files()
      reads if highRes.Some? then {highRes.value as object, highRes.value.nodes} else {}
    {
      Apart() && CachesValid() && FilesOpen()
    }

    ghost function State(): Held<O>
      reads Caches()
    {
      Held(portalCache.State(), highResCache.State(), localCache.State(), cellCache.State())
    }

    ghost function Sizes(): Sizes {
      DatObjects.Sizes(portalCache.Limits(), highResCache.Limits(), localCache.Limits(), cellCache.Limits())
    }

    constructor (dats: Dats<O>, portal: DatFile, highRes: Option<DatFile>, local: DatFile, cell: DatFile,
                 portalCache: ObjectCache<O>, highResCache: ObjectCache<O>, localCache: ObjectCache<O>, cellCache: ObjectCache<O>)
      ensures this.dats == dats && this.portal == portal && this.highRes == highRes
      ensures this.local == local && this.cell == cell
      ensures this.portalCache == portalCache && this.highResCache == highResCache
      ensures this.localCache == localCache && this.cellCache == cellCache
    {
      this.dats, this.portal, this.highRes, this.local, this.cell := dats, portal, highRes, local, cell;
      this.portalCache, this.highResCache, this.localCache, this.cellCache :=
        portalCache, highResCache, localCache, cellCache;
    }

    /** Which dat a portal object is read from. */
    method PickPortal(id: nat) returns (r: Result<DatSource, DatError>)
      requires Valid()
      modifies Files()
      ensures Valid() && State() == old(State()) && r == PortalPick(dats, id)
    {
      if highRes.None? {
        return Ok(Portal);
      }
      var found := highRes.value.FindEntry(id, dats.highRes.value.tree);
      if found.Err? {
        return Err(found.error);
      }
      r := Ok(if found.value.Some? then HighRes else Portal);
    }

    method AskHighRes(key: Key) returns (found: Option<O>)
      requires Valid()
      modifies Caches()
      ensures Valid() && found == Lookup(old(State()).highRes.items, key)
      ensures State() == if found.Some? then old(State()).With(HighRes, old(State()).highRes.Hit(key)) else old(State())
    {
      found := highResCache.Ask(key);
    }

    method AskPortal(key: Key) returns (found: Option<O>)
      requires Valid()
      modifies Caches()
      ensures Valid() && found == Lookup(old(State()).portal.items, key)
      ensures State() == if found.Some? then old(State()).With(Portal, old(State()).portal.Hit(key)) else old(State())
    {
      found := portalCache.Ask(key);
    }

    method ReadHighRes(key: Key) returns (r: Answer<O>)
      requires Valid() && highRes.Some?
      modifies Caches(), Files()
      ensures Valid()
      ensures
        (State(), r) == ReadInto(dats, Sizes(), old(State()).With(HighRes, old(State()).highRes.Miss()), HighRes, key)
    {
      r := MissAndRead(dats, HighRes, highRes.value, highResCache, key);
    }

    method ReadPortal(key: Key) returns (r: Answer<O>)
      requires Valid()
      modifies Caches(), Files()
      ensures Valid()
      ensures
        (State(), r) == ReadInto(dats, Sizes(), old(State()).With(Portal, old(State()).portal.Miss()), Portal, key)
    {
      r := MissAndRead(dats, Portal, portal, portalCache, key);
    }

    /** A portal object neither cache has. */
    method ReadPicked(key: Key) returns (r: Answer<O>)
      requires Valid()
      requires Lookup(State().highRes.items, key).None? && Lookup(State().portal.items, key).None?
      modifies Caches(), Files()
      ensures Valid() && (State(), r) == CachedPortal(dats, Sizes(), old(State()), key)
    {
      NeitherHolds(dats, Sizes(), State(), key);
      var source := PickPortal(key.id);
      if source.Err? {
        r := Err(source.error);
      } else if source.value == HighRes {
        r := ReadHighRes(key);
      } else {
        r := ReadPortal(key);
      }
    }

    method GetPortal(key: Key) returns (r: Answer<O>)
      requires Valid()
      modifies Caches(), Files()
      ensures Valid() && (State(), r) == CachedPortal(dats, Sizes(), old(State()), key)
    {
      var found := AskHighRes(key);
      if found.Some? {
        return Ok(found);
      }
      found := AskPortal(key);
      if found.Some? {
        return Ok(found);
      }
      r := ReadPicked(key);
    }

    method GetCell(key: Key) returns (r: Answer<O>)
      requires Valid()
      modifies Caches(), Files()
      ensures Valid() && (State(), r) == CachedFrom(dats, Sizes(), old(State()), Cell, key)
    {
      r := GetFrom(dats, Cell, cell, cellCache, key);
    }

    method GetLocal(key: Key) returns (r: Answer<O>)
      requires Valid()
      modifies Caches(), Files()
      ensures Valid() && (State(), r) == CachedFrom(dats, Sizes(), old(State()), Local, key)
    {
      r := GetFrom(dats, Local, local, localCache, key);
    }

    method GetCached(key: Key) returns (r: Answer<O>)
      requires Valid()
      modifies Caches(), Files()
      ensures Valid() && (State(), r) == Cached(dats, Sizes(), old(State()), key)
    {
      match key.kind.home
      case CellType => r := GetCell(key);
      case LocalType => r := GetLocal(key);
      case PortalType => r := GetPortal(key);
      case _ => r := Ok(None);
    }

    /** Read a typed object through the caches: what sound caches answer is what
        the dats hold. */
    method Get(key: Key) returns (r: Answer<O>)
      requires Valid() && Sound(dats, Sizes(), State())
      modifies Caches(), Files()
      ensures Valid() && Sound(dats, Sizes(), State())
      ensures State() == Cached(dats, Sizes(), old(State()), key).0
      ensures r == Uncached(dats, key)
    {
      CachedAnswersUncached(dats, Sizes(), State(), key);
      r := GetCached(key);
    }
  }
}
