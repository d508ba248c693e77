/** Which file an object is read from, and what it is read as, in terms of what the
    directories list. */
module DatAnswers {
  import opened Wrappers
  import opened Bytes
  import opened DatChain
  import opened DatNode
  import opened DatTree
  import opened DatLookup
  import opened DatReader
  import opened DatContents
  import opened DatObjects

  ghost predicate InOrderFile(file: File) {
    Opened(file.dat, file.tree) && Intact(file.tree) && Ordered(file.tree, LEAST, MOST)
  }

  ghost predicate AllInOrder<O>(dats: Dats<O>) {
    && InOrderFile(dats.portal) && InOrderFile(dats.local) && InOrderFile(dats.cell)
    && (dats.highRes.Some? ==> InOrderFile(dats.highRes.value))
  }

  ghost predicate HasListed<O>(dats: Dats<O>, source: DatSource, id: nat)
    requires AllInOrder(dats)
  {
    match source
    case Portal => !HasNone(dats.portal.tree, id)
    case HighRes => dats.highRes.Some? && !HasNone(dats.highRes.value.tree, id)
    case Local => !HasNone(dats.local.tree, id)
    case Cell => !HasNone(dats.cell.tree, id)
  }

  lemma EntryIffListed(file: File, id: nat)
    requires InOrderFile(file)
    ensures EntryOf(file, id).Ok? && (EntryOf(file, id).value.Some? <==> !HasNone(file.tree, id))
  {
    FindAnswersOrdered(file.tree, id);
  }

  /** The file an object of a kind is in: for a portal object the high-resolution one if
      that lists its id. */
  ghost predicate IsHome<O>(dats: Dats<O>, key: Key, file: File)
    requires AllInOrder(dats)
  {
    match key.kind.home
    case CellType => file == dats.cell
    case LocalType => file == dats.local
    case PortalType => if HasListed(dats, HighRes, key.id) then file == dats.highRes.value else file == dats.portal
    case _ => false
  }

  lemma UncachedIsFromHome<O>(dats: Dats<O>, key: Key, file: File)
    requires AllInOrder(dats) && IsHome(dats, key, file)
    ensures Uncached(dats, key) == Decoded(dats, key, Contents(file.dat, file.tree, key.id))
  {
    if key.kind.home.PortalType? && dats.highRes.Some? {
      EntryIffListed(dats.highRes.value, key.id);
    }
  }

  /** What it decodes to as `key`, laid where its file lists it. */
  ghost predicate Stores<O>(dats: Dats<O>, file: File, key: Key, o: O)
    requires InOrderFile(file)
  {
    exists data :: ListsStored(file.dat, file.tree, key.id, data) && dats.decode(key, data) == Some(o)
  }

  /** An object is read as what the bytes listed under its id in its file decode to; it is
      not there exactly when nothing is listed, and types of no dat are nowhere. */
  lemma ReadsWhatIsStored<O>(dats: Dats<O>, key: Key, file: File, o: O)
    requires AllInOrder(dats) && IsHome(dats, key, file)
    ensures Uncached(dats, key) == Ok(Some(o)) <==> Stores(dats, file, key, o)
    ensures Uncached(dats, key) == Ok(None) <==> HasNone(file.tree, key.id)
  {
    UncachedIsFromHome(dats, key, file);
    var contents := Contents(file.dat, file.tree, key.id);
    ContentsAreWhatIsListed(file.dat, file.tree, key.id, [], 0);
    if Uncached(dats, key) == Ok(Some(o)) {
      var data := contents.value.value;
      ContentsAreWhatIsListed(file.dat, file.tree, key.id, data, 0);
      assert ListsStored(file.dat, file.tree, key.id, data) && dats.decode(key, data) == Some(o);
    }
    if Stores(dats, file, key, o) {
      var data :| ListsStored(file.dat, file.tree, key.id, data) && dats.decode(key, data) == Some(o);
      ContentsAreWhatIsListed(file.dat, file.tree, key.id, data, 0);
    }
  }

  /** The first dat of a list that lists an id. */
  lemma FirstIs<O>(dats: Dats<O>, id: nat, source: DatSource, rest: seq<DatSource>)
    requires AllInOrder(dats)
    ensures FirstHolding(dats, id, [source] + rest) ==
      if HasListed(dats, source, id) then Ok(Some(source)) else FirstHolding(dats, id, rest)
  {
    var all := [source] + rest;
    assert all[0] == source && all[1..] == rest;
    if dats.FileOf(source).Some? {
      EntryIffListed(dats.FileOf(source).value, id);
    }
  }

  /** An id of unknown type is in the high-resolution dat if that lists it, else in the
      portal one, else the local one, else the cell one. */
  lemma ResolvesInPrecedence<O>(dats: Dats<O>, id: nat)
    requires AllInOrder(dats)
    ensures Resolve(dats, id) == Ok(
      if HasListed(dats, HighRes, id) then Some(HighRes)
      else if HasListed(dats, Portal, id) then Some(Portal)
      else if HasListed(dats, Local, id) then Some(Local)
      else if HasListed(dats, Cell, id) then Some(Cell)
      else None)
  {
    FirstIs(dats, id, Cell, []);
    FirstIs(dats, id, Local, [Cell] + []);
    FirstIs(dats, id, Portal, [Local] + ([Cell] + []));
    FirstIs(dats, id, HighRes, [Portal] + ([Local] + ([Cell] + [])));
    assert PRECEDENCE == [HighRes] + ([Portal] + ([Local] + ([Cell] + [])));
  }
}
