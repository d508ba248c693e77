/** Moving a file or folder to its place in the new layout, whatever step fails or is
    the last: onto nothing by a rename, or a copy to another volume, a folder onto a
    folder child by child, anything else by settling which of the two keeps the name. */
module LayoutMoves {
  import opened Wrappers
  import opened DiskModel
  import opened BesideNames
  import opened TemporaryNames
  import opened FolderWalks
  import opened LayoutKeeps
  import opened LayoutRuns
  import opened Disks
  import opened CopyStates
  import opened LayoutCopy
  import opened CopyKeeps

  /** No file stands on the way to `p`. */
  ghost predicate WayIsOpen(files: Files, p: Path) {
    forall q {:trigger q in files} | q in files && Under(p, q) && q != p :: files[q].Folder?
  }

  /** Everything is on one volume, or no folder is in the way of a temporary name. */
  ghost predicate Unblocked(world: World, files: Files, src: Path, dst: Path) {
    world.OneVolume() || (PlainFolders(files) && PlainTarget(files, src, dst))
  }

  /** From the `n`-th operation on nothing stands in the way of the move. */
  ghost predicate MaySucceed(world: World, n: nat, files: Files, src: Path, dst: Path) {
    world.NoFailure(n) && WayIsOpen(files, dst) && Unblocked(world, files, src, dst)
  }

  // ---- Where things end up --------------------------------------------------------------

  /** The whole of `from` has come to be at `to`: renamed, or copied and deleted. */
  ghost predicate Transferred(world: World, a: Files, b: Files, from: Path, to: Path)
    requires to != []
  {
    && from in a && NothingIn(a, to) && NothingIn(b, from)
    && (if world.crosses(from, to) then Made(world.listing, a, b, from, to) else b == Renamed(a, from, to))
  }

  /** Everything in `src` stands at its place in `dst`; on another volume what a
      copy brings along, holding the same. */
  ghost predicate Landed(world: World, a: Files, b: Files, src: Path, dst: Path) {
    forall p {:trigger Moved(p, src, dst)} | p in a && Under(p, src) :: LandedAt(world, a, b, src, dst, p)
  }

  /** But for new folders on the way the whole of `src` has come to be at `dst`. */
  ghost predicate MovedWhole(world: World, a: Files, c: Files, src: Path, dst: Path)
    requires dst != []
  {
    exists b :: OnlyFolders(a, b, Parent(dst)) && Transferred(world, b, c, src, dst)
  }

  ghost predicate LandedAt(world: World, a: Files, b: Files, src: Path, dst: Path, p: Path)
    requires p in a
  {
    var q := Moved(p, src, dst);
    if world.crosses(src, dst) then
      (q in b <==> Brought(world.listing, a, src, p)) && (q in b ==> Alike(a[p], b[q]))
    else q in b && b[q] == a[p]
  }

  /** Which of two that clash keeps the name: a folder over a file, else the newer. */
  predicate IncomingWins(incoming: Node, existing: Node) {
    if incoming.Folder? != existing.Folder? then incoming.Folder? else incoming.modified > existing.modified
  }

  predicate SameFile(a: Node, b: Node) {
    a.File? && b.File? && a.content == b.content
  }

  /** What settling a clash leaves: the one that keeps the name at `dst`, the other
      beside it; of two files with the same contents only the one there. */
  ghost predicate Settled(world: World, a: Files, b: Files, src: Path, dst: Path, n: nat)
    requires src in a && dst in a && dst != []
  {
    if SameFile(a[src], a[dst]) then b == a - {src}
    else
      n >= 1
      && var beside := Candidate(dst, n);
         NothingIn(a, beside)
         && if IncomingWins(a[src], a[dst]) then
              NothingIn(Renamed(a, dst, beside), dst) && Transferred(world, Renamed(a, dst, beside), b, src, dst)
            else Transferred(world, a, b, src, beside)
  }

  /** Of two that clash the one to have the name and the one to stand beside it: a folder
      before a file, else the one modified later, and of two modified together the one
      that was there. */
  function Precedence(incoming: Node, existing: Node): (Node, Node) {
    if incoming.Folder? && existing.File? then (incoming, existing)
    else if incoming.File? && existing.Folder? then (existing, incoming)
    else if incoming.modified > existing.modified then (incoming, existing)
    else (existing, incoming)
  }

  lemma AsideIsApart(src: Path, dst: Path, n: nat)
    requires Apart(src, dst) && dst != [] && n >= 1 && Candidate(dst, n) != src
    ensures !Under(Candidate(dst, n), src) && !Under(src, dst) && !Under(Candidate(dst, n), dst)
  {
    CandidateIsAnother(dst, n);
    PrefixIs(Candidate(dst, n), src);
  }

  lemma IncomingTakesName(a: Files, src: Path, dst: Path, beside: Path)
    requires src in a && dst in a && NothingIn(a, beside) && NothingIn(Renamed(a, dst, beside), dst)
    requires !Under(src, dst) && !Under(beside, src) && !Under(src, beside)
    ensures src in Renamed(a, dst, beside)
    ensures var b := Renamed(Renamed(a, dst, beside), src, dst);
            dst in b && b[dst] == a[src] && beside in b && b[beside] == a[dst]
  {
    var c := Renamed(a, dst, beside);
    RenamedAt(a, dst, beside, dst);
    RenamedAt(a, dst, beside, src);
    assert Moved(dst, dst, beside) == beside && Moved(src, dst, beside) == src;
    RenamedAt(c, src, dst, src);
    RenamedAt(c, src, dst, beside);
    assert Moved(src, src, dst) == dst && Moved(beside, src, dst) == beside;
  }

  lemma IncomingStandsAside(a: Files, src: Path, dst: Path, beside: Path)
    requires src in a && dst in a && NothingIn(a, beside) && !Under(dst, src)
    ensures var b := Renamed(a, src, beside); dst in b && b[dst] == a[dst] && beside in b && b[beside] == a[src]
  {
    RenamedAt(a, src, beside, src);
    RenamedAt(a, src, beside, dst);
    assert Moved(src, src, beside) == beside && Moved(dst, src, beside) == dst;
  }

  lemma AsideIsClear(a: Files, src: Path, dst: Path, n: nat)
    requires Apart(src, dst) && dst != [] && n >= 1 && src in a && NothingIn(a, Candidate(dst, n))
    ensures !Under(src, dst) && !Under(Candidate(dst, n), src) && !Under(src, Candidate(dst, n))
  {
    var beside := Candidate(dst, n);
    assert !Under(src, beside);
    assert Under(beside, beside) && src != beside;
    AsideIsApart(src, dst, n);
  }

  /** On one volume: a settled clash ends with the one that goes before under the name, as
      it was, and the other, as it was, beside it; so of two files the later is under it. */
  lemma SettledByTime(world: World, a: Files, b: Files, src: Path, dst: Path, n: nat)
    requires src in a && dst in a && src != [] && dst != [] && Apart(src, dst) && n >= 1
    requires Settled(world, a, b, src, dst, n) && !SameFile(a[src], a[dst])
    requires !world.crosses(src, dst) && !world.crosses(src, Candidate(dst, n))
    ensures
      var beside := Candidate(dst, n);
      && dst in b && beside in b && (b[dst], b[beside]) == Precedence(a[src], a[dst])
      && (a[src].File? && a[dst].File? ==> b[beside].modified <= b[dst].modified)
  {
    AsideIsClear(a, src, dst, n);
    if IncomingWins(a[src], a[dst]) {
      IncomingTakesName(a, src, dst, Candidate(dst, n));
    } else {
      IncomingStandsAside(a, src, dst, Candidate(dst, n));
    }
  }

  /** All that is new is folders on the way to `p`. */
  ghost predicate OnlyFolders(a: Files, b: Files, p: Path) {
    && (forall q {:trigger q in a} | q in a :: q in b && b[q] == a[q])
    && (forall q {:trigger q in b} | q in b && q !in a :: b[q].Folder? && Under(p, q))
  }

  lemma StepOnTheWay(dst: Path, k: nat)
    requires 1 <= k < |dst|
    ensures Parent(dst[..k]) == dst[..k - 1] && Under(dst, dst[..k]) && dst[..k] != dst && Under(Parent(dst), dst[..k])
  {
    assert dst[..k] == Parent(dst)[..k];
  }

  lemma OneMoreFolder(a: Files, b: Files, c: Files, dst: Path, step: Path)
    requires dst != [] && OnlyFolders(a, b, Parent(dst)) && step !in b && Under(Parent(dst), step)
    requires c == b || c == b[step := Folder(0)]
    ensures OnlyFolders(a, c, Parent(dst))
  {
  }

  lemma Carried(l: Listing, u: Trace, v: Trace, src: Path, to: Path, dst: Path, m: nat, ok: bool)
    requires Carries(u.files, src, to, dst) && CopiedThenDeleted(l, u, v, src, to, m)
    requires Recorded(u) && Recorded(v)
    requires ok ==> Made(l, u.files, v.files, src, to) && NothingIn(v.files, src)
    ensures Kept(u, v, src, dst) && (ok ==> Through(u, v, src, dst)) && NothingIn(u.files, to)
  {
    NothingUnder(u.files, to);
    CopyKept(l, u, v, src, to, dst, m);
    if ok {
      CopyThrough(l, u, v, src, to, dst, m);
    }
  }

  lemma WholeRenamed(a: Files, src: Path, to: Path, dst: Path)
    requires WellFormed(a) && src in a && NothingIn(a, to) && to != [] && dst != []
    requires Apart(src, dst) && Apart(src, to) && GoesTo(a, src, to, dst)
    ensures var b := Renamed(a, src, to); KeepsAll(a, b, src, dst) && Comes(a, b, src, dst) && StaysPlain(a, b, src, dst)
    ensures NothingIn(Renamed(a, src, to), src)
  {
    RenamedLeavesNothing(a, src, to);
    if to == dst {
      MovedKeeps(a, src, dst);
      MovedComes(a, src, dst);
      MovedStaysPlain(a, src, dst);
    } else {
      AsideKeeps(a, src, to, src, dst);
    }
  }

  // ---- Paths and parents --------------------------------------------------------------------

  /** After a rename nothing is left where it came from. */
  lemma RenamedLeavesNothing(files: Files, from: Path, to: Path)
    requires from in files && NothingIn(files, to) && Apart(from, to)
    ensures NothingIn(Renamed(files, from, to), from)
  {
    forall q | q in Renamed(files, from, to) ensures !Under(q, from) {
      MovedLeaves(files, from, to, q);
    }
  }

  lemma SiblingIsApart(dst: Path, n: nat)
    requires dst != [] && n >= 1
    ensures Apart(Candidate(dst, n), dst) && Candidate(dst, n) != [] && Parent(Candidate(dst, n)) == Parent(dst)
  {
    CandidateIsAnother(dst, n);
  }

  /** A free name beside `dst` is apart from `src`. */
  lemma BesideIsApart(files: Files, src: Path, dst: Path, n: nat)
    requires src in files && dst != [] && n >= 1 && Candidate(dst, n) !in files && Apart(src, dst) && WellFormed(files)
    ensures Apart(src, Candidate(dst, n))
  {
    var beside := Candidate(dst, n);
    CandidateIsAnother(dst, n);
    ParentIsNotUnder(dst, src);
    InsideByParent(beside, src);
    NothingUnder(files, beside);
  }

  /** The folder `dst` is in stays. */
  lemma FolderAboveStays(a: Files, b: Files, src: Path, dst: Path)
    requires dst != [] && Apart(src, dst) && IsFolder(a, Parent(dst)) && Keeps(a, b, src, dst)
    ensures IsFolder(b, Parent(dst))
  {
    WayIsOutside(src, dst, Parent(dst));
    assert Same(a, b, dst, Parent(dst));
  }

  lemma WayIsOutside(src: Path, dst: Path, q: Path)
    requires Apart(src, dst) && Under(dst, q) && q != dst
    ensures !InRegion(q, src, dst)
  {
    PrefixIs(dst, q);
    if Under(q, src) {
      PrefixChain(src, q, dst);
    }
    NearIsAsLong(q, dst);
  }

  lemma NearIsAsLong(q: Path, t: Path)
    ensures Near(q, t) || TempNear(q, t) ==> |q| == |t|
  {
    if Near(q, t) {
      NearIsSibling(q, t);
    } else if TempNear(q, t) {
      var x :| Near(x, t) && x != [] && q == Temp(x);
      NearIsSibling(x, t);
    }
  }

  /** The way stays open. */
  lemma WayStaysOpen(a: Files, b: Files, src: Path, dst: Path)
    requires Apart(src, dst) && Keeps(a, b, src, dst) && WayIsOpen(a, dst)
    ensures WayIsOpen(b, dst)
  {
    forall q | q in b && Under(dst, q) && q != dst ensures b[q].Folder? {
      WayIsOutside(src, dst, q);
      assert Same(a, b, dst, q);
    }
  }

  lemma StaysUnblocked(world: World, a: Files, b: Files, src: Path, dst: Path)
    requires Unblocked(world, a, src, dst) && Keeps(a, b, src, dst) && StaysPlain(a, b, src, dst)
    ensures Unblocked(world, b, src, dst)
  {
    assert Under(src, src);
    if PlainFolders(a) && PlainTarget(a, src, dst) {
      PlainStays(a, b, src, dst);
    }
  }

  lemma StateKeptUnblocked(world: World, u: Trace, v: Trace, src: Path, dst: Path)
    requires Unblocked(world, u.files, src, dst) && dst != [] && Kept(u, v, src, dst)
    ensures Unblocked(world, v.files, src, dst) && (world.OneVolume() || Clear(v.files, src, dst))
  {
    StaysUnblocked(world, u.files, v.files, src, dst);
  }

  lemma OnlyFoldersLeavesFree(a: Files, b: Files, src: Path, dst: Path)
    requires dst != [] && dst !in a && src in a && OnlyFolders(a, b, Parent(dst))
    ensures dst !in b && src in b
  {
    assert !Under(Parent(dst), dst);
  }

  /** Once the one there has stepped aside its name is free and the rest stands. */
  lemma AfterStepAside(a: Files, src: Path, dst: Path, n: nat)
    requires WellFormed(a) && src in a && dst in a && src != [] && dst != [] && Apart(src, dst)
    requires n >= 1 && NothingIn(a, Candidate(dst, n))
    ensures
      var b := Renamed(a, dst, Candidate(dst, n));
      NothingIn(b, dst) && dst !in b && src in b && b[src] == a[src] && IsFolder(b, Parent(dst))
  {
    var beside := Candidate(dst, n);
    SiblingIsApart(dst, n);
    RenamedLeavesNothing(a, dst, beside);
    assert Under(dst, dst) && !Under(Parent(dst), dst);
    ParentIsThere(a, dst);
    RenamedAt(a, dst, beside, src);
    RenamedAt(a, dst, beside, Parent(dst));
  }

  lemma WholeLands(world: World, a: Files, b: Files, c: Files, src: Path, dst: Path)
    requires dst != [] && Apart(src, dst) && OnlyFolders(a, b, Parent(dst)) && Transferred(world, b, c, src, dst)
    ensures Landed(world, a, c, src, dst)
  {
    assert SourceWhole(a, b, src) by {
      forall p | Under(p, src) ensures SameAt(a, b, p) {
        if p in b && p !in a {
          PrefixChain(p, Parent(dst), dst);
        }
        if Under(dst, p) {
          PrefixChain(src, p, dst);
        }
      }
    }
    forall p | p in a && Under(p, src) ensures LandedAt(world, a, c, src, dst, p) {
      assert SameAt(a, b, p);
      if world.crosses(src, dst) {
        SourceOfMoved(p, src, dst);
        assert Under(Moved(p, src, dst), dst);
        if p != src {
          ClearedSame(world.listing, a, b, src, p);
        }
      } else {
        RenamedAt(b, src, dst, p);
      }
    }
  }

  // ---- Merging folders ----------------------------------------------------------------------

  /** Part-way through a merge. */
  ghost predicate Merging(files: Files, src: Path, dst: Path, names: seq<Name>, i: nat, depth: nat) {
    IsFolder(files, src) && IsFolder(files, dst) && Shallow(files, src, depth) && Remaining(files, src, names, i)
  }

  /** Moving a child leaves the rest of its folder alone. */
  lemma RestStays(b: Files, c: Files, src: Path, dst: Path, n: Name, p: Path)
    requires Apart(src, dst) && Keeps(b, c, src + [n], dst + [n]) && Under(p, src) && !Under(p, src + [n])
    ensures p in b <==> p in c
    ensures p in b ==> c[p] == b[p]
  {
    InsideIsApart(p, src, dst);
    if InRegion(p, src + [n], dst + [n]) {
      ChildRegion(p, src, dst, n);
    }
    assert Same(b, c, dst + [n], p);
    assert Under(dst + [n], dst);
    if Under(dst + [n], p) {
      WayToChild(p, dst, n);
    }
  }

  /** A child moved leaves the merge one name further. */
  lemma ChildMoved(b: Files, c: Files, src: Path, dst: Path, names: seq<Name>, i: nat, depth: nat)
    requires Apart(src, dst) && Distinct(names) && i < |names| && Merging(b, src, dst, names, i, depth)
    requires Keeps(b, c, src + [names[i]], dst + [names[i]]) && NothingIn(c, src + [names[i]])
    ensures Merging(c, src, dst, names, i + 1, depth)
  {
    RestStays(b, c, src, dst, names[i], src);
    ChildrenAreApart(src, dst, names[i]);
    assert Parent(dst + [names[i]]) == dst;
    FolderAboveStays(b, c, src + [names[i]], dst + [names[i]]);
    forall p | Under(p, src) && !Under(p, src + [names[i]]) ensures p in b <==> p in c {
      RestStays(b, c, src, dst, names[i], p);
    }
    OneLess(b, c, src, names, i);
    assert forall p | p in c && Under(p, src) :: p in b;
  }

  /** Nothing but folders above something there. */
  lemma WayToChildIsOpen(files: Files, dst: Path, n: Name)
    requires WellFormed(files) && IsFolder(files, dst)
    ensures WayIsOpen(files, dst + [n])
  {
    forall q | q in files && Under(dst + [n], q) && q != dst + [n] ensures files[q].Folder? {
      assert q == dst[..|q|];
      if |q| < |dst| {
        AncestorsAreFolders(files, dst, |q|);
      } else {
        assert q == dst;
      }
    }
  }

  lemma ChildIsUnblocked(world: World, a: Files, b: Files, src: Path, dst: Path, n: Name)
    requires dst != [] && IsFolder(a, src) && Unblocked(world, a, src, dst) && StaysPlain(a, b, src, dst)
    ensures Unblocked(world, b, src + [n], dst + [n])
  {
    if PlainFolders(a) && PlainTarget(a, src, dst) {
      PlainStays(a, b, src, dst);
      assert Parent(dst + [n]) == dst && dst == Parent(dst) + [dst[|dst| - 1]];
      assert (src + [n])[|src|] == n && (dst + [n])[|dst|] == n;
      assert IsFolder(b, src + [n]) ==> Real(src + [n]);
    }
  }

  // ---- Moving one item ------------------------------------------------------------------------

  class Mover {
    const disk: Disk

    constructor (disk: Disk)
      ensures this.disk == disk
    {
      this.disk := disk;
    }

    /** Every folder on the way to `dst`, from the top down. */
    method MakeFolders(dst: Path, ghost src: Path) returns (ok: bool)
      requires disk.Valid() && dst != [] && Apart(src, dst)
      modifies disk
      ensures disk.Valid() && Kept(old(disk.Now()), disk.Now(), src, dst) && Through(old(disk.Now()), disk.Now(), src, dst)
      ensures disk.world.OneVolume() ==> disk.copies == old(disk.copies)
      ensures ok ==> IsFolder(disk.files, Parent(dst))
      ensures OnlyFolders(old(disk.files), disk.files, Parent(dst))
      ensures disk.world.NoFailure(old(disk.tried)) && WayIsOpen(old(disk.files), dst) ==> ok
      ensures disk.tried >= old(disk.tried)
    {
      ghost var u := disk.Now();
      ok := true;
      KeptNothing(u, src, dst);
      for k := 1 to |dst|
        invariant disk.Valid() && IsFolder(disk.files, dst[..k - 1]) && disk.tried >= old(disk.tried)
        invariant Kept(u, disk.Now(), src, dst) && Through(u, disk.Now(), src, dst)
        invariant disk.world.OneVolume() ==> disk.copies == old(disk.copies)
        invariant OnlyFolders(u.files, disk.files, Parent(dst))
      {
        ok := MakeStep(dst, k, src, u);
        if !ok {
          return;
        }
      }
      assert dst[..|dst| - 1] == Parent(dst);
    }

    method MakeStep(dst: Path, k: nat, ghost src: Path, ghost u: Trace) returns (ok: bool)
      requires disk.Valid() && Apart(src, dst) && 1 <= k < |dst| && IsFolder(disk.files, dst[..k - 1])
      requires Kept(u, disk.Now(), src, dst) && Through(u, disk.Now(), src, dst)
      requires OnlyFolders(u.files, disk.files, Parent(dst))
      modifies disk
      ensures disk.Valid() && Kept(u, disk.Now(), src, dst) && Through(u, disk.Now(), src, dst)
      ensures disk.world.OneVolume() ==> disk.copies == old(disk.copies)
      ensures OnlyFolders(u.files, disk.files, Parent(dst)) && (ok ==> IsFolder(disk.files, dst[..k]))
      ensures disk.world.NoFailure(old(disk.tried)) && WayIsOpen(u.files, dst) ==> ok
      ensures disk.tried >= old(disk.tried)
    {
      var step := dst[..k];
      StepOnTheWay(dst, k);
      if step in disk.files {
        ok := disk.files[step].Folder?;
      } else {
        ghost var v := disk.Now();
        ok := MakeOne(step, dst, src);
        BothChain(u, v, disk.Now(), src, dst, true);
        OneMoreFolder(u.files, v.files, disk.files, dst, step);
      }
    }

    method MakeOne(step: Path, dst: Path, ghost src: Path) returns (ok: bool)
      requires disk.Valid() && step != [] && step !in disk.files && IsFolder(disk.files, Parent(step))
      requires Apart(src, dst) && Under(dst, step) && step != dst
      modifies disk
      ensures disk.Valid() && Kept(old(disk.Now()), disk.Now(), src, dst) && Through(old(disk.Now()), disk.Now(), src, dst)
      ensures disk.world.OneVolume() ==> disk.copies == old(disk.copies)
      ensures disk.files == if ok then old(disk.files)[step := Folder(0)] else old(disk.files)
      ensures disk.tried == old(disk.tried) + 1 && ok == disk.world.plan(old(disk.tried)).Works?
    {
      ghost var u := disk.Now();
      ok := disk.MakeDir(step);
      MadeFolderKeeps(u.files, step, src, dst);
      KeepsItself(u.files, src, dst);
      KeptStep(u, disk.files, src, dst);
    }

    /** The whole of `src` goes to the free name `to`, `dst` or, a file, one beside
        it: renamed, or copied where that is on another volume. */
    method RenameOrCopy(src: Path, to: Path, ghost dst: Path) returns (ok: bool)
      requires disk.Valid() && src in disk.files && src != [] && to != [] && dst != [] && to !in disk.files
      requires IsFolder(disk.files, Parent(to)) && Apart(src, dst) && Apart(src, to) && GoesTo(disk.files, src, to, dst)
      modifies disk
      ensures disk.Valid() && Kept(old(disk.Now()), disk.Now(), src, dst) && disk.tried >= old(disk.tried)
      ensures disk.world.OneVolume() ==> disk.copies == old(disk.copies)
      ensures ok ==> Through(old(disk.Now()), disk.Now(), src, dst)
      ensures ok ==> Transferred(disk.world, old(disk.files), disk.files, src, to)
      ensures disk.world.NoFailure(old(disk.tried)) && (disk.world.OneVolume() || Clear(old(disk.files), src, to)) ==> ok
    {
      ghost var u := disk.Now();
      NothingUnder(disk.files, to);
      var r := disk.Rename(src, to);
      ok := r.Taken?;
      KeepsItself(u.files, src, dst);
      if ok {
        WholeRenamed(u.files, src, to, dst);
      }
      ghost var v := disk.Now();
      KeptStep(u, disk.files, src, dst);
      if r.Elsewhere? {
        ok := CopyAcross(src, to, dst);
        BothChain(u, v, disk.Now(), src, dst, ok);
      }
    }

    method CopyAcross(src: Path, to: Path, ghost dst: Path) returns (ok: bool)
      requires disk.Valid() && src in disk.files && src != [] && to != [] && dst != [] && to !in disk.files
      requires IsFolder(disk.files, Parent(to)) && Apart(src, dst) && Apart(src, to) && GoesTo(disk.files, src, to, dst)
      requires disk.world.crosses(src, to)
      modifies disk
      ensures disk.Valid() && Kept(old(disk.Now()), disk.Now(), src, dst) && disk.tried >= old(disk.tried)
      ensures disk.world.OneVolume() ==> disk.copies == old(disk.copies)
      ensures ok ==> Through(old(disk.Now()), disk.Now(), src, dst)
      ensures ok ==> Transferred(disk.world, old(disk.files), disk.files, src, to)
      ensures disk.world.NoFailure(old(disk.tried)) && Clear(old(disk.files), src, to) ==> ok
    {
      ghost var u := disk.Now();
      NothingUnder(disk.files, to);
      ghost var m: nat;
      ok, m := CopyThenDelete(disk, src, to);
      Carried(disk.world.listing, u, disk.Now(), src, to, dst, m, ok);
    }

    // ---- Onto something --------------------------------------------------------------------

    method MoveToFree(src: Path, dst: Path) returns (ok: bool)
      requires disk.Valid() && src in disk.files && src != [] && dst != [] && Apart(src, dst) && dst !in disk.files
      modifies disk
      ensures disk.Valid() && Kept(old(disk.Now()), disk.Now(), src, dst) && disk.tried >= old(disk.tried)
      ensures disk.world.OneVolume() ==> disk.copies == old(disk.copies)
      ensures ok ==> Through(old(disk.Now()), disk.Now(), src, dst)
      ensures ok ==> NothingIn(disk.files, src) && Landed(disk.world, old(disk.files), disk.files, src, dst)
                     && MovedWhole(disk.world, old(disk.files), disk.files, src, dst)
      ensures MaySucceed(disk.world, old(disk.tried), old(disk.files), src, dst) ==> ok
    {
      ghost var u := disk.Now();
      ok := MakeFolders(dst, src);
      if !ok {
        return;
      }
      ghost var v := disk.Now();
      OnlyFoldersLeavesFree(u.files, v.files, src, dst);
      NearSelf(dst);
      if Unblocked(disk.world, u.files, src, dst) {
        StateKeptUnblocked(disk.world, u, v, src, dst);
      }
      ok := RenameOrCopy(src, dst, dst);
      if ok {
        WholeLands(disk.world, u.files, v.files, disk.files, src, dst);
      }
      BothChain(u, v, disk.Now(), src, dst, ok);
    }

    /** The one at `dst` takes a free name beside it. */
    method StepAside(src: Path, dst: Path, beside: Path, ghost n: nat) returns (ok: bool)
      requires disk.Valid() && src in disk.files && IsFile(disk.files, dst) && src != [] && dst != [] && Apart(src, dst)
      requires n >= 1 && beside == Candidate(dst, n) && beside !in disk.files
      modifies disk
      ensures disk.Valid() && Kept(old(disk.Now()), disk.Now(), src, dst) && disk.tried == old(disk.tried) + 1
      ensures disk.world.OneVolume() ==> disk.copies == old(disk.copies)
      ensures ok ==> Through(old(disk.Now()), disk.Now(), src, dst)
      ensures NothingIn(old(disk.files), beside)
      ensures disk.files == if ok then Renamed(old(disk.files), dst, beside) else old(disk.files)
      ensures disk.world.NoFailure(old(disk.tried)) ==> ok
    {
      ghost var u := disk.Now();
      SiblingIsApart(dst, n);
      ParentIsThere(disk.files, dst);
      BesideIsApart(disk.files, src, dst, n);
      NearCandidate(dst, n);
      var r := disk.Rename(dst, beside);
      ok := r.Taken?;
      KeepsItself(u.files, src, dst);
      if ok {
        AsideKeeps(u.files, dst, beside, src, dst);
      }
      KeptStep(u, disk.files, src, dst);
    }

    /** The one there steps aside, and the one moving takes the name. */
    method TakeName(src: Path, dst: Path, beside: Path, ghost n: nat) returns (ok: bool)
      requires disk.Valid() && src in disk.files && IsFile(disk.files, dst) && src != [] && dst != [] && Apart(src, dst)
      requires n >= 1 && beside == Candidate(dst, n) && beside !in disk.files
      modifies disk
      ensures disk.Valid() && Kept(old(disk.Now()), disk.Now(), src, dst) && disk.tried >= old(disk.tried)
      ensures disk.world.OneVolume() ==> disk.copies == old(disk.copies)
      ensures ok ==> Through(old(disk.Now()), disk.Now(), src, dst)
      ensures NothingIn(old(disk.files), beside)
      ensures ok ==> NothingIn(Renamed(old(disk.files), dst, beside), dst)
                     && Transferred(disk.world, Renamed(old(disk.files), dst, beside), disk.files, src, dst)
      ensures disk.world.NoFailure(old(disk.tried)) && Unblocked(disk.world, old(disk.files), src, dst) ==> ok
    {
      ghost var u := disk.Now();
      ok := StepAside(src, dst, beside, n);
      if !ok {
        return;
      }
      ghost var v := disk.Now();
      AfterStepAside(u.files, src, dst, n);
      NearSelf(dst);
      if Unblocked(disk.world, u.files, src, dst) {
        StateKeptUnblocked(disk.world, u, v, src, dst);
      }
      ok := RenameOrCopy(src, dst, dst);
      BothChain(u, v, disk.Now(), src, dst, ok);
    }

    /** The one moving takes a name beside the one there. */
    method StandBeside(src: Path, dst: Path, beside: Path, ghost n: nat) returns (ok: bool)
      requires disk.Valid() && IsFile(disk.files, src) && dst in disk.files && src != [] && dst != [] && Apart(src, dst)
      requires n >= 1 && beside == Candidate(dst, n) && beside !in disk.files
      modifies disk
      ensures disk.Valid() && Kept(old(disk.Now()), disk.Now(), src, dst) && disk.tried >= old(disk.tried)
      ensures disk.world.OneVolume() ==> disk.copies == old(disk.copies)
      ensures ok ==> Through(old(disk.Now()), disk.Now(), src, dst)
      ensures ok ==> Transferred(disk.world, old(disk.files), disk.files, src, beside)
      ensures disk.world.NoFailure(old(disk.tried)) && Unblocked(disk.world, old(disk.files), src, dst) ==> ok
    {
      SiblingIsApart(dst, n);
      ParentIsThere(disk.files, dst);
      BesideIsApart(disk.files, src, dst, n);
      NearCandidate(dst, n);
      ok := RenameOrCopy(src, beside, dst);
    }

    /** The same file is there already: the one moving is not needed. */
    method DropDuplicate(src: Path, dst: Path) returns (ok: bool)
      requires disk.Valid() && src in disk.files && dst in disk.files && src != [] && dst != [] && Apart(src, dst)
      requires SameFile(disk.files[src], disk.files[dst])
      modifies disk
      ensures disk.Valid() && Kept(old(disk.Now()), disk.Now(), src, dst) && disk.tried >= old(disk.tried)
      ensures disk.world.OneVolume() ==> disk.copies == old(disk.copies)
      ensures ok ==> Through(old(disk.Now()), disk.Now(), src, dst)
      ensures ok ==> disk.files == old(disk.files) - {src} && NothingIn(disk.files, src)
      ensures disk.world.NoFailure(old(disk.tried)) ==> ok
    {
      ghost var u := disk.Now();
      ok := disk.RemoveFile(src);
      KeepsItself(u.files, src, dst);
      if ok {
        DroppedKeeps(u.files, src, dst);
        TakenAwayComes(u.files, src, src, dst);
        NothingBelowFile(u.files, src);
      }
      KeptStep(u, disk.files, src, dst);
    }

    /** Something is there already, and they are not both folders. */
    method Settle(src: Path, dst: Path) returns (ok: bool, ghost n: nat)
      requires disk.Valid() && src in disk.files && dst in disk.files && src != [] && dst != [] && Apart(src, dst)
      requires disk.files[src].File? || disk.files[dst].File?
      modifies disk
      ensures disk.Valid() && Kept(old(disk.Now()), disk.Now(), src, dst) && disk.tried >= old(disk.tried)
      ensures disk.world.OneVolume() ==> disk.copies == old(disk.copies)
      ensures ok ==> Through(old(disk.Now()), disk.Now(), src, dst) && NothingIn(disk.files, src)
      ensures ok ==> Settled(disk.world, old(disk.files), disk.files, src, dst, n)
      ensures disk.world.NoFailure(old(disk.tried)) && Unblocked(disk.world, old(disk.files), src, dst) ==> ok
    {
      n := 1;
      KeptNothing(disk.Now(), src, dst);
      ok := disk.Look();
      if !ok {
        return;
      }
      var incoming, existing := disk.files[src], disk.files[dst];
      if SameFile(incoming, existing) {
        ok := DropDuplicate(src, dst);
        return;
      }
      var beside: Path;
      var count: nat;
      beside, count := BesideName(disk.files, dst);
      n := count;
      NothingUnder(disk.files, beside);
      if IncomingWins(incoming, existing) {
        ok := TakeName(src, dst, beside, n);
      } else {
        ok := StandBeside(src, dst, beside, n);
      }
    }

    /** Moves a file or folder to `dst`: onto nothing by a rename or a copy, a folder
        onto a folder child by child, anything else by settling the clash. */
    method MoveItem(src: Path, dst: Path, ghost depth: nat) returns (ok: bool)
      requires disk.Valid() && src in disk.files && src != [] && dst != [] && Apart(src, dst)
      requires Shallow(disk.files, src, depth)
      modifies disk
      ensures disk.Valid() && Kept(old(disk.Now()), disk.Now(), src, dst) && disk.tried >= old(disk.tried)
      ensures disk.world.OneVolume() ==> disk.copies == old(disk.copies)
      ensures ok ==> Through(old(disk.Now()), disk.Now(), src, dst) && NothingIn(disk.files, src)
      ensures ok && dst !in old(disk.files) ==> Landed(disk.world, old(disk.files), disk.files, src, dst)
                                                && MovedWhole(disk.world, old(disk.files), disk.files, src, dst)
      ensures ok && dst in old(disk.files) && (old(disk.files)[src].File? || old(disk.files)[dst].File?) ==>
                exists n :: Settled(disk.world, old(disk.files), disk.files, src, dst, n)
      ensures MaySucceed(disk.world, old(disk.tried), old(disk.files), src, dst) ==> ok
      decreases depth, 2
    {
      if dst !in disk.files {
        ok := MoveToFree(src, dst);
      } else if disk.files[src].Folder? && disk.files[dst].Folder? {
        ok := Merge(src, dst, depth);
      } else {
        ghost var n;
        ok, n := Settle(src, dst);
      }
    }

    method Merge(src: Path, dst: Path, ghost depth: nat) returns (ok: bool)
      requires disk.Valid() && src != [] && dst != [] && Apart(src, dst)
      requires IsFolder(disk.files, src) && IsFolder(disk.files, dst) && Shallow(disk.files, src, depth)
      modifies disk
      ensures disk.Valid() && Kept(old(disk.Now()), disk.Now(), src, dst) && disk.tried >= old(disk.tried)
      ensures disk.world.OneVolume() ==> disk.copies == old(disk.copies)
      ensures ok ==> Through(old(disk.Now()), disk.Now(), src, dst) && NothingIn(disk.files, src)
      ensures disk.world.NoFailure(old(disk.tried)) && Unblocked(disk.world, old(disk.files), src, dst) ==> ok
      decreases depth, 1
    {
      ghost var u := disk.Now();
      KeptNothing(u, src, dst);
      ok := disk.Look();
      if !ok {
        return;
      }
      var listed := disk.ReadDir(src);
      if listed.None? {
        return false;
      }
      var names := listed.value;
      AllRemain(disk.files, src, names);
      for i := 0 to |names|
        invariant disk.Valid() && Merging(disk.files, src, dst, names, i, depth) && disk.tried >= old(disk.tried)
        invariant Kept(u, disk.Now(), src, dst) && Through(u, disk.Now(), src, dst)
        invariant disk.world.OneVolume() ==> disk.copies == old(disk.copies)
      {
        ok := MoveChild(src, dst, names, i, depth, u);
        if !ok {
          return;
        }
      }
      ok := Finish(src, dst, names, depth, u);
    }

    method MoveChild(src: Path, dst: Path, names: seq<Name>, i: nat, ghost depth: nat, ghost u: Trace)
      returns (ok: bool)
      requires disk.Valid() && src != [] && dst != [] && Apart(src, dst) && Distinct(names) && i < |names|
      requires IsFolder(u.files, src) && Merging(disk.files, src, dst, names, i, depth)
      requires Kept(u, disk.Now(), src, dst) && Through(u, disk.Now(), src, dst)
      modifies disk
      ensures disk.Valid() && Kept(u, disk.Now(), src, dst) && disk.tried >= old(disk.tried)
      ensures disk.world.OneVolume() ==> disk.copies == old(disk.copies)
      ensures ok ==> Through(u, disk.Now(), src, dst) && Merging(disk.files, src, dst, names, i + 1, depth)
      ensures disk.world.NoFailure(old(disk.tried)) && Unblocked(disk.world, u.files, src, dst) ==> ok
      decreases depth, 0
    {
      var child, into := src + [names[i]], dst + [names[i]];
      ghost var v := disk.Now();
      assert child in v.files;
      ChildrenAreApart(src, dst, names[i]);
      ChildIsShallow(v.files, src, names[i], depth);
      WayToChildIsOpen(v.files, dst, names[i]);
      if Unblocked(disk.world, u.files, src, dst) {
        ChildIsUnblocked(disk.world, u.files, v.files, src, dst, names[i]);
      }
      ok := MoveItem(child, into, depth - 1);
      ChildKept(v, disk.Now(), src, dst, names[i]);
      if ok {
        ChildMoved(v.files, disk.files, src, dst, names, i, depth);
      }
      BothChain(u, v, disk.Now(), src, dst, ok);
    }

    /** The emptied folder goes. */
    method Finish(src: Path, dst: Path, names: seq<Name>, ghost depth: nat, ghost u: Trace) returns (ok: bool)
      requires disk.Valid() && src != [] && dst != [] && Apart(src, dst)
      requires Merging(disk.files, src, dst, names, |names|, depth)
      requires Kept(u, disk.Now(), src, dst) && Through(u, disk.Now(), src, dst)
      modifies disk
      ensures disk.Valid() && Kept(u, disk.Now(), src, dst) && disk.tried >= old(disk.tried)
      ensures disk.world.OneVolume() ==> disk.copies == old(disk.copies)
      ensures ok ==> Through(u, disk.Now(), src, dst) && NothingIn(disk.files, src)
      ensures disk.world.NoFailure(old(disk.tried)) ==> ok
    {
      ghost var v := disk.Now();
      NoneRemain(disk.files, src, names);
      ok := disk.RemoveDir(src);
      KeepsItself(v.files, src, dst);
      if ok {
        EmptiedKeeps(v.files, src, dst);
        TakenAwayComes(v.files, src, src, dst);
      }
      KeptStep(v, disk.files, src, dst);
      BothChain(u, v, disk.Now(), src, dst, ok);
    }
  }

  // ---- Running a move again ----------------------------------------------------------------

  /** A move stopped at any moment can be run again. */
  lemma StoppedMayGoOn(world: World, u: Trace, v: Trace, src: Path, dst: Path, x: Files)
    requires Kept(u, v, src, dst) && Passed(u, v, x) && src != [] && dst != [] && Apart(src, dst)
    requires world.NoFailure(0) && WayIsOpen(u.files, dst) && Unblocked(world, u.files, src, dst)
    ensures MaySucceed(world, 0, x, src, dst)
    ensures src in x ==> src in u.files && x[src] == u.files[src]
  {
    PassedIsKept(u, v, src, dst, x);
    WayStaysOpen(u.files, x, src, dst);
    StaysUnblocked(world, u.files, x, src, dst);
    assert Under(src, src);
  }

  /** The file is at its place in `dst` or beside it, or where it was or beside that. */
  ghost predicate ArrivedAt(a: Files, b: Files, src: Path, dst: Path, p: Path)
    requires p in a && a[p].File?
  {
    exists q :: Holds(b, q, a[p].content) && Near(q, if Under(p, src) then dst + p[|src|..] else p)
  }

  /** So is every file but those under temporary names where something moved. */
  ghost predicate Arrived(a: Files, b: Files, src: Path, dst: Path) {
    forall p {:trigger p in a} | p in a && a[p].File? && (InRegion(p, src, dst) ==> Named(p, src, dst)) :: ArrivedAt(a, b, src, dst, p)
  }

  /** So is every file. */
  ghost predicate AllArrived(a: Files, b: Files, src: Path, dst: Path) {
    forall p {:trigger p in a} | p in a && a[p].File? :: ArrivedAt(a, b, src, dst, p)
  }

  lemma NamedArrive(a: Files, x: Files, b: Files, src: Path, dst: Path)
    requires Keeps(a, x, src, dst) && Keeps(x, b, src, dst) && NothingIn(b, src)
    ensures Arrived(a, b, src, dst) && (AllNamed(a, src, dst) ==> AllArrived(a, b, src, dst))
  {
    KeepsOn(a, x, b, src, dst);
    forall p | p in a && a[p].File? && (InRegion(p, src, dst) ==> Named(p, src, dst)) ensures ArrivedAt(a, b, src, dst, p) {
      EveryFileArrives(a, b, src, dst, p);
    }
  }

  lemma EveryoneArrives(a: Files, x: Files, b: Files, src: Path, dst: Path)
    requires KeepsAll(a, x, src, dst) && KeepsAll(x, b, src, dst) && NothingIn(b, src)
    ensures AllArrived(a, b, src, dst)
  {
    KeepsAllOn(a, x, b, src, dst);
    forall p | p in a && a[p].File? ensures ArrivedAt(a, b, src, dst, p) {
      assert Held(b, p, src, dst, a[p].content);
      NearSelf(p);
    }
  }

  /** A move stopped at any state it passes through and run again with nothing failing
      leaves nothing at the source, and every file of the disk it began with at its
      place or beside it; only where something is copied to another volume are files
      under temporary names excepted. */
  method RunAgain(ghost u: Trace, ghost v: Trace, x: Files, src: Path, dst: Path, world: World) returns (disk: Disk)
    requires Kept(u, v, src, dst) && Recorded(v) && Passed(u, v, x)
    requires src != [] && dst != [] && Apart(src, dst) && world.Fair() && world.NoFailure(0)
    requires WayIsOpen(u.files, dst) && Unblocked(world, u.files, src, dst)
    ensures fresh(disk) && disk.Valid() && NothingIn(disk.files, src) && Arrived(u.files, disk.files, src, dst)
    ensures AllNamed(u.files, src, dst) ==> AllArrived(u.files, disk.files, src, dst)
    ensures world.OneVolume() && v.copies == u.copies ==> AllArrived(u.files, disk.files, src, dst)
  {
    StoppedMayGoOn(world, u, v, src, dst, x);
    PassedIsKept(u, v, src, dst, x);
    disk := new Disk(x, world);
    KeepsItself(x, src, dst);
    if src in x {
      var mover := new Mover(disk);
      ghost var depth := SomeDepth(x, src);
      var ok := mover.MoveItem(src, dst, depth);
    } else {
      NothingUnder(x, src);
    }
    NamedArrive(u.files, x, disk.files, src, dst);
    if world.OneVolume() && v.copies == u.copies {
      EveryoneArrives(u.files, x, disk.files, src, dst);
    }
  }
}
