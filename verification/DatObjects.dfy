/** The four dats of a client and the decoded objects kept in front of them:
    every read through the caches answers what the dats themselves answer. */
module DatObjects {
  import opened Wrappers
  import opened Bytes
  import opened DatChain
  import opened DatNode
  import opened DatTree
  import opened DatReader
  import opened Recency

  datatype DatFileType = PortalType | CellType | LocalType | UndefinedType | OtherType(code: nat)

  /** A decodable type and the dat it lives in. */
  datatype ObjectType = ObjectType(tag: nat, home: DatFileType)

  /** The same id read as two types is two objects. */
  datatype Key = Key(kind: ObjectType, id: nat)

  datatype DatSource = Portal | HighRes | Local | Cell

  datatype File = File(dat: Dat, tree: Tree)

  /** The open dats; how bytes decode and how big an object is taken to be are
      fixed functions of no interest here. */
  datatype Dats<!O> = Dats(portal: File, highRes: Option<File>, local: File, cell: File,
                           decode: (Key, seq<Byte>) -> Option<O>, estimate: O -> nat) {
    ghost predicate Valid() {
      && Opened(portal.dat, portal.tree)
      && Opened(local.dat, local.tree)
      && Opened(cell.dat, cell.tree)
      && (highRes.Some? ==> Opened(highRes.value.dat, highRes.value.tree))
    }

    /** One of the dats; none for the high-resolution dat an install lacks. */
    function FileOf(source: DatSource): Option<File> {
      match source
      case Portal => Some(portal)
      case HighRes => highRes
      case Local => Some(local)
      case Cell => Some(cell)
    }
  }

  type Answer<O> = Result<Option<O>, DatError>

  // ---- Without caches ---------------------------------------------------------

  ghost function EntryOf(file: File, id: nat): Result<Option<Entry>, DatError>
    requires Opened(file.dat, file.tree)
  {
    Find(file.tree, id)
  }

  /** What a file's bytes decode to as `key`. */
  function Decoded<O>(dats: Dats<O>, key: Key, contents: Result<Option<seq<Byte>>, DatError>): Answer<O> {
    match contents
    case Err(e) => Err(e)
    case Ok(None) => Ok(None)
    case Ok(Some(bytes)) =>
      match dats.decode(key, bytes)
      case None => Err(Undecodable(key.id))
      case Some(o) => Ok(Some(o))
  }

  /** Object `key` as one dat's file has it. */
  ghost function ReadFile<O>(dats: Dats<O>, file: File, key: Key): Answer<O>
    requires Opened(file.dat, file.tree)
  {
    Decoded(dats, key, Contents(file.dat, file.tree, key.id))
  }

  /** The dat a portal object is read from: the high-resolution one when it
      holds the id. */
  ghost function PortalPick<O>(dats: Dats<O>, id: nat): Result<DatSource, DatError>
    requires dats.Valid()
  {
    if dats.highRes.None? then Ok(Portal)
    else
      match EntryOf(dats.highRes.value, id)
      case Err(e) => Err(e)
      case Ok(found) => Ok(if found.Some? then HighRes else Portal)
  }

  ghost function ReadSource<O>(dats: Dats<O>, source: DatSource, key: Key): Answer<O>
    requires dats.Valid() && dats.FileOf(source).Some?
  {
    ReadFile(dats, dats.FileOf(source).value, key)
  }

  ghost function Uncached<O>(dats: Dats<O>, key: Key): Answer<O>
    requires dats.Valid()
  {
    match key.kind.home
    case CellType => ReadSource(dats, Cell, key)
    case LocalType => ReadSource(dats, Local, key)
    case PortalType =>
      (match PortalPick(dats, key.id)
       case Err(e) => Err(e)
       case Ok(source) => ReadSource(dats, source, key))
    case _ => Ok(None)
  }

  const PRECEDENCE := [HighRes, Portal, Local, Cell]

  /** The first of `sources` that holds `id`. */
  ghost function FirstHolding<O>(dats: Dats<O>, id: nat, sources: seq<DatSource>): Result<Option<DatSource>, DatError>
    requires dats.Valid()
  {
    if sources == [] then Ok(None)
    else
      match dats.FileOf(sources[0])
      case None => FirstHolding(dats, id, sources[1..])
      case Some(file) =>
        match EntryOf(file, id)
        case Err(e) => Err(e)
        case Ok(Some(_)) => Ok(Some(sources[0]))
        case Ok(None) => FirstHolding(dats, id, sources[1..])
  }

  /** The dat an id of unknown type is read from. */
  ghost function Resolve<O>(dats: Dats<O>, id: nat): Result<Option<DatSource>, DatError>
    requires dats.Valid()
  {
    FirstHolding(dats, id, PRECEDENCE)
  }

  ghost predicate HasId<O>(dats: Dats<O>, source: DatSource, id: nat)
    requires dats.Valid()
  {
    dats.FileOf(source).Some? && EntryOf(dats.FileOf(source).value, id).Ok?
    && EntryOf(dats.FileOf(source).value, id).value.Some?
  }

  lemma {:induction false} FirstHoldingIsFirst<O>(dats: Dats<O>, id: nat, sources: seq<DatSource>)
    requires dats.Valid() && FirstHolding(dats, id, sources).Ok?
    ensures
      match FirstHolding(dats, id, sources).value
      case None => forall s | s in sources :: !HasId(dats, s, id)
      case Some(s) => exists i :: 0 <= i < |sources| && sources[i] == s && HasId(dats, s, id)
                        && forall j | 0 <= j < i :: !HasId(dats, sources[j], id)
  {
    if sources != [] {
      if HasId(dats, sources[0], id) {
        assert sources[0] == FirstHolding(dats, id, sources).value.value;
      } else {
        FirstHoldingIsFirst(dats, id, sources[1..]);
        assert FirstHolding(dats, id, sources) == FirstHolding(dats, id, sources[1..]);
        var found := FirstHolding(dats, id, sources).value;
        if found.Some? {
          var i :| 0 <= i < |sources[1..]| && sources[1..][i] == found.value
            && forall j | 0 <= j < i :: !HasId(dats, sources[1..][j], id);
          assert sources[i + 1] == found.value;
          forall j | 0 <= j < i + 1 ensures !HasId(dats, sources[j], id) {
            assert j > 0 ==> sources[j] == sources[1..][j - 1];
          }
        }
      }
    }
  }

  lemma NoPortalDatLeft<O>(dats: Dats<O>, id: nat)
    requires dats.Valid() && FirstHolding(dats, id, [Local, Cell]).Ok?
    ensures FirstHolding(dats, id, [Local, Cell]).value !in {Some(Portal), Some(HighRes)}
  {
    FirstHoldingIsFirst(dats, id, [Local, Cell]);
  }

  lemma ResolveUnfolds<O>(dats: Dats<O>, id: nat)
    requires dats.Valid()
    ensures Resolve(dats, id) ==
      if dats.highRes.Some? && EntryOf(dats.highRes.value, id).Err? then Err(EntryOf(dats.highRes.value, id).error)
      else if HasId(dats, HighRes, id) then Ok(Some(HighRes))
      else FirstHolding(dats, id, [Portal, Local, Cell])
  {
    assert PRECEDENCE[1..] == [Portal, Local, Cell];
  }

  lemma PortalUnfolds<O>(dats: Dats<O>, id: nat)
    requires dats.Valid()
    ensures FirstHolding(dats, id, [Portal, Local, Cell]) ==
      if EntryOf(dats.portal, id).Err? then Err(EntryOf(dats.portal, id).error)
      else if HasId(dats, Portal, id) then Ok(Some(Portal))
      else FirstHolding(dats, id, [Local, Cell])
  {
    assert [Portal, Local, Cell][1..] == [Local, Cell];
  }

  /** An id resolved to a portal-type dat is read from that dat as a portal
      object; one resolved to neither is not in them. */
  lemma ResolveAgreesWithPick<O>(dats: Dats<O>, id: nat)
    requires dats.Valid() && Resolve(dats, id).Ok?
    ensures PortalPick(dats, id).Ok?
    ensures Resolve(dats, id).value in {Some(Portal), Some(HighRes)} ==>
              PortalPick(dats, id).value == Resolve(dats, id).value.value
    ensures Resolve(dats, id).value !in {Some(Portal), Some(HighRes)} ==>
              !HasId(dats, Portal, id) && !HasId(dats, HighRes, id)
  {
    ResolveUnfolds(dats, id);
    if !HasId(dats, HighRes, id) {
      PortalUnfolds(dats, id);
      if !HasId(dats, Portal, id) {
        NoPortalDatLeft(dats, id);
      }
    }
  }

  // ---- Through the caches ----------------------------------------------------------

  /** One cache: what it holds and what it has counted. */
  datatype CacheState<O> = CacheState(items: seq<Item<Key, O>>, hits: nat, misses: nat) {
    function Hit(key: Key): CacheState<O> {
      CacheState(Touched(items, key), hits + 1, misses)
    }

    function Miss(): CacheState<O> {
      CacheState(items, hits, misses + 1)
    }

    function Added(limits: Limits, item: Item<Key, O>): CacheState<O> {
      CacheState(Offered(items, limits, item).0, hits, misses)
    }
  }

  datatype Held<O> = Held(portal: CacheState<O>, highRes: CacheState<O>, local: CacheState<O>, cell: CacheState<O>) {
    function At(source: DatSource): CacheState<O> {
      match source
      case Portal => portal
      case HighRes => highRes
      case Local => local
      case Cell => cell
    }

    function With(source: DatSource, state: CacheState<O>): Held<O> {
      match source
      case Portal => this.(portal := state)
      case HighRes => this.(highRes := state)
      case Local => this.(local := state)
      case Cell => this.(cell := state)
    }

    function Counted(): nat {
      portal.hits + highRes.hits + local.hits + cell.hits
      + portal.misses + highRes.misses + local.misses + cell.misses
    }
  }

  datatype Sizes = Sizes(portal: Limits, highRes: Limits, local: Limits, cell: Limits) {
    /** A cache's limits, each at least 1. */
    function Of(source: DatSource): Limits {
      var l := match source case Portal => portal case HighRes => highRes case Local => local case Cell => cell;
      Limits(AtLeastOne(l.entries), AtLeastOne(l.bytes))
    }
  }

  function AtLeastOne(n: nat): nat {
    if n < 1 then 1 else n
  }

  function Charged<O>(dats: Dats<O>, key: Key, o: O): Item<Key, O> {
    Item(key, o, AtLeastOne(dats.estimate(o)))
  }

  /** What reading `key` from its dat leaves in a cache that was asked for it in
      vain, and the answer. */
  ghost function ReadIntoOne<O>(dats: Dats<O>, limits: Limits, source: DatSource, state: CacheState<O>, key: Key):
    (CacheState<O>, Answer<O>)
    requires dats.Valid() && dats.FileOf(source).Some?
  {
    match ReadSource(dats, source, key)
    case Ok(Some(o)) =>
      (state.Added(limits, Charged(dats, key, o)), Ok(Some(Offered(state.items, limits, Charged(dats, key, o)).1)))
    case other => (state, other)
  }

  ghost function ReadInto<O>(dats: Dats<O>, sizes: Sizes, held: Held<O>, source: DatSource, key: Key): (Held<O>, Answer<O>)
    requires dats.Valid() && dats.FileOf(source).Some?
  {
    var (state, answer) := ReadIntoOne(dats, sizes.Of(source), source, held.At(source), key);
    (held.With(source, state), answer)
  }

  /** A read from one dat, its cache asked first. */
  ghost function FromOne<O>(dats: Dats<O>, limits: Limits, source: DatSource, state: CacheState<O>, key: Key):
    (CacheState<O>, Answer<O>)
    requires dats.Valid() && dats.FileOf(source).Some?
  {
    match Lookup(state.items, key)
    case Some(o) => (state.Hit(key), Ok(Some(o)))
    case None => ReadIntoOne(dats, limits, source, state.Miss(), key)
  }

  ghost function CachedFrom<O>(dats: Dats<O>, sizes: Sizes, held: Held<O>, source: DatSource, key: Key): (Held<O>, Answer<O>)
    requires dats.Valid() && dats.FileOf(source).Some?
  {
    var (state, answer) := FromOne(dats, sizes.Of(source), source, held.At(source), key);
    (held.With(source, state), answer)
  }

  /** Memory first, the high-resolution cache before the portal cache, then the
      dat the id is picked from. */
  ghost function CachedPortal<O>(dats: Dats<O>, sizes: Sizes, held: Held<O>, key: Key): (Held<O>, Answer<O>)
    requires dats.Valid()
  {
    if Lookup(held.highRes.items, key).Some? then
      (held.With(HighRes, held.highRes.Hit(key)), Ok(Lookup(held.highRes.items, key)))
    else if Lookup(held.portal.items, key).Some? then
      (held.With(Portal, held.portal.Hit(key)), Ok(Lookup(held.portal.items, key)))
    else
      match PortalPick(dats, key.id)
      case Err(e) => (held, Err(e))
      case Ok(source) => ReadInto(dats, sizes, held.With(source, held.At(source).Miss()), source, key)
  }

  ghost function Cached<O>(dats: Dats<O>, sizes: Sizes, held: Held<O>, key: Key): (Held<O>, Answer<O>)
    requires dats.Valid()
  {
    match key.kind.home
    case CellType => CachedFrom(dats, sizes, held, Cell, key)
    case LocalType => CachedFrom(dats, sizes, held, Local, key)
    case PortalType => CachedPortal(dats, sizes, held, key)
    case _ => (held, Ok(None))
  }

  // ---- The caches are invisible ----------------------------------------------------------

  predicate LivesIn(home: DatFileType, source: DatSource) {
    match source
    case Portal => home == PortalType
    case HighRes => home == PortalType
    case Local => home == LocalType
    case Cell => home == CellType
  }

  /** An object one cache may hold: what its dat gives, and for a portal object
      only in the cache of the dat its id is picked from. So the portal cache
      never holds an id the high-resolution dat has. */
  ghost predicate Rightful<O>(dats: Dats<O>, source: DatSource, item: Item<Key, O>)
    requires dats.Valid()
  {
    && LivesIn(item.key.kind.home, source)
    && (source in {Portal, HighRes} ==> PortalPick(dats, item.key.id) == Ok(source))
    && dats.FileOf(source).Some?
    && ReadSource(dats, source, item.key) == Ok(Some(item.value))
  }

  ghost predicate AllRightful<O>(dats: Dats<O>, source: DatSource, items: seq<Item<Key, O>>)
    requires dats.Valid()
  {
    forall item {:trigger Rightful(dats, source, item)} | item in items :: Rightful(dats, source, item)
  }

  ghost predicate Sound<O>(dats: Dats<O>, sizes: Sizes, held: Held<O>)
    requires dats.Valid()
  {
    forall source: DatSource {:trigger held.At(source)} ::
      AllRightful(dats, source, held.At(source).items) && Within(held.At(source).items, sizes.Of(source))
  }

  lemma HitIsRightful<O>(dats: Dats<O>, source: DatSource, items: seq<Item<Key, O>>, key: Key)
    requires dats.Valid() && AllRightful(dats, source, items)
    ensures Lookup(items, key).Some? ==> Rightful(dats, source, Item(key, Lookup(items, key).value, items[IndexOf(items, key)].size))
  {
    var i := IndexOf(items, key);
    if i < |items| {
      assert items[i] in items && Rightful(dats, source, items[i]);
      assert items[i] == Item(key, Lookup(items, key).value, items[i].size);
    }
  }

  lemma WithKeepsSound<O>(dats: Dats<O>, sizes: Sizes, held: Held<O>, source: DatSource, state: CacheState<O>)
    requires dats.Valid() && Sound(dats, sizes, held)
    requires AllRightful(dats, source, state.items) && Within(state.items, sizes.Of(source))
    ensures Sound(dats, sizes, held.With(source, state))
  {
    var after := held.With(source, state);
    forall s: DatSource
      ensures AllRightful(dats, s, after.At(s).items) && Within(after.At(s).items, sizes.Of(s))
    {
      assert after.At(s) == if s == source then state else held.At(s);
    }
  }

  lemma HitKeepsSound<O>(dats: Dats<O>, sizes: Sizes, held: Held<O>, source: DatSource, key: Key)
    requires dats.Valid() && Sound(dats, sizes, held)
    ensures Sound(dats, sizes, held.With(source, held.At(source).Hit(key)))
  {
    var items := held.At(source).items;
    TouchedHoldsSame(items, key);
    TouchedKeepsItems(items, key);
    TouchedKeepsDistinct(items, key);
    assert AllRightful(dats, source, Touched(items, key));
    WithKeepsSound(dats, sizes, held, source, held.At(source).Hit(key));
  }

  lemma ReadIntoAnswers<O>(dats: Dats<O>, sizes: Sizes, held: Held<O>, source: DatSource, key: Key)
    requires dats.Valid() && Sound(dats, sizes, held) && dats.FileOf(source).Some?
    requires LivesIn(key.kind.home, source) && (source in {Portal, HighRes} ==> PortalPick(dats, key.id) == Ok(source))
    requires Lookup(held.At(source).items, key).None?
    ensures
      var (after, answer) := ReadInto(dats, sizes, held, source, key);
      Sound(dats, sizes, after) && answer == ReadSource(dats, source, key)
    ensures ReadInto(dats, sizes, held, source, key).0.Counted() == held.Counted()
  {
    var read := ReadSource(dats, source, key);
    if read.Ok? && read.value.Some? {
      var items, item := held.At(source).items, Charged(dats, key, read.value.value);
      assert Rightful(dats, source, item);
      OfferedStaysWithin(items, sizes.Of(source), item);
      OfferedHolds(items, sizes.Of(source), item);
      assert AllRightful(dats, source, Offered(items, sizes.Of(source), item).0);
      WithKeepsSound(dats, sizes, held, source, held.At(source).Added(sizes.Of(source), item));
    }
  }

  lemma MissKeepsSound<O>(dats: Dats<O>, sizes: Sizes, held: Held<O>, source: DatSource)
    requires dats.Valid() && Sound(dats, sizes, held)
    ensures Sound(dats, sizes, held.With(source, held.At(source).Miss()))
    ensures held.With(source, held.At(source).Miss()).At(source).items == held.At(source).items
  {
    WithKeepsSound(dats, sizes, held, source, held.At(source).Miss());
  }

  lemma CachedFromAnswers<O>(dats: Dats<O>, sizes: Sizes, held: Held<O>, source: DatSource, key: Key)
    requires dats.Valid() && Sound(dats, sizes, held) && dats.FileOf(source).Some?
    requires source in {Local, Cell} && LivesIn(key.kind.home, source)
    ensures
      var (after, answer) := CachedFrom(dats, sizes, held, source, key);
      Sound(dats, sizes, after) && answer == ReadSource(dats, source, key) && after.Counted() == held.Counted() + 1
  {
    HitIsRightful(dats, source, held.At(source).items, key);
    if Lookup(held.At(source).items, key).Some? {
      HitKeepsSound(dats, sizes, held, source, key);
    } else {
      MissKeepsSound(dats, sizes, held, source);
      ReadIntoAnswers(dats, sizes, held.With(source, held.At(source).Miss()), source, key);
    }
  }

  /** A read that counts neither a hit nor a miss: of a portal object no cache
      holds, whose high-resolution directory cannot be read. */
  ghost predicate GoesUncounted<O>(dats: Dats<O>, held: Held<O>, key: Key)
    requires dats.Valid()
  {
    || key.kind.home.UndefinedType? || key.kind.home.OtherType?
    || (&& key.kind.home == PortalType
        && Lookup(held.highRes.items, key).None? && Lookup(held.portal.items, key).None?
        && PortalPick(dats, key.id).Err?)
  }

  lemma CachedPortalAnswers<O>(dats: Dats<O>, sizes: Sizes, held: Held<O>, key: Key)
    requires dats.Valid() && Sound(dats, sizes, held) && key.kind.home == PortalType
    ensures
      var (after, answer) := CachedPortal(dats, sizes, held, key);
      && Sound(dats, sizes, after) && answer == Uncached(dats, key)
      && after.Counted() == held.Counted() + if GoesUncounted(dats, held, key) then 0 else 1
  {
    assert held.At(HighRes) == held.highRes && held.At(Portal) == held.portal;
    HitIsRightful(dats, HighRes, held.highRes.items, key);
    HitIsRightful(dats, Portal, held.portal.items, key);
    HitKeepsSound(dats, sizes, held, HighRes, key);
    HitKeepsSound(dats, sizes, held, Portal, key);
    if Lookup(held.highRes.items, key).None? && Lookup(held.portal.items, key).None? && PortalPick(dats, key.id).Ok? {
      var source := PortalPick(dats, key.id).value;
      MissKeepsSound(dats, sizes, held, source);
      ReadIntoAnswers(dats, sizes, held.With(source, held.At(source).Miss()), source, key);
    }
  }

  /** One read: whatever the caches hold, the answer is the dats' own, and the
      caches stay sound and within their limits. */
  lemma CachedAnswersUncached<O>(dats: Dats<O>, sizes: Sizes, held: Held<O>, key: Key)
    requires dats.Valid() && Sound(dats, sizes, held)
    ensures
      var (after, answer) := Cached(dats, sizes, held, key);
      && Sound(dats, sizes, after) && answer == Uncached(dats, key)
      && after.Counted() == held.Counted() + if GoesUncounted(dats, held, key) then 0 else 1
  {
    match key.kind.home
    case CellType => CachedFromAnswers(dats, sizes, held, Cell, key);
    case LocalType => CachedFromAnswers(dats, sizes, held, Local, key);
    case PortalType => CachedPortalAnswers(dats, sizes, held, key);
    case _ =>
  }

  ghost function Answers<O>(dats: Dats<O>, sizes: Sizes, held: Held<O>, keys: seq<Key>): seq<Answer<O>>
    requires dats.Valid()
    decreases |keys|
  {
    if keys == [] then []
    else
      var (after, answer) := Cached(dats, sizes, held, keys[0]);
      [answer] + Answers(dats, sizes, after, keys[1..])
  }

  /** Any sequence of reads, from any sound caches of any size: read by read the
      answers are the dats' own. */
  lemma {:induction false} EveryReadAnswersUncached<O>(dats: Dats<O>, sizes: Sizes, held: Held<O>, keys: seq<Key>)
    requires dats.Valid() && Sound(dats, sizes, held)
    ensures |Answers(dats, sizes, held, keys)| == |keys|
    ensures forall i | 0 <= i < |keys| :: Answers(dats, sizes, held, keys)[i] == Uncached(dats, keys[i])
    decreases |keys|
  {
    if keys != [] {
      CachedAnswersUncached(dats, sizes, held, keys[0]);
      EveryReadAnswersUncached(dats, sizes, Cached(dats, sizes, held, keys[0]).0, keys[1..]);
    }
  }

  /** Caches that start empty are sound. */
  lemma EmptyIsSound<O>(dats: Dats<O>, sizes: Sizes)
    requires dats.Valid()
    ensures var none := CacheState([], 0, 0); Sound(dats, sizes, Held<O>.Held(none, none, none, none))
  {
  }
}
