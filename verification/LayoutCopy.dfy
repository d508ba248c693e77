/** Moving something to another volume: copied under temporary names, read back, and
    only then deleted where it was. Any operation may fail or be the last. */
module LayoutCopy {
  import opened Wrappers
  import opened DiskModel
  import opened BesideNames
  import opened TemporaryNames
  import opened FolderWalks
  import opened LayoutKeeps
  import opened LayoutRuns
  import opened Disks
  import opened CopyStates

  // ---- Removing --------------------------------------------------------------------------

  /** Every state of a removal has only less, and only at `p`. */
  ghost predicate AllLessened(u: Trace, v: Trace, p: Path) {
    && u.history <= v.history && v.copies == u.copies && Lessened(u.files, v.files, p)
    && forall i {:trigger v.history[i]} | |u.history| <= i < |v.history| :: Lessened(u.files, v.history[i], p)
  }

  lemma LessenedChain(u: Trace, v: Trace, w: Trace, p: Path, top: Path)
    requires AllLessened(u, v, top) && AllLessened(v, w, p) && Under(p, top)
    ensures AllLessened(u, w, top)
  {
    LessenedOn(u.files, v.files, w.files, p, top);
    forall i | |u.history| <= i < |w.history| ensures Lessened(u.files, w.history[i], top) {
      if i < |v.history| {
        assert w.history[i] == v.history[i];
      } else {
        LessenedOn(u.files, v.files, w.history[i], p, top);
      }
    }
  }

  lemma TakenAway(u: Trace, p: Path)
    ensures AllLessened(u, Stepped(u, u.files - {p}), p) && AllLessened(u, Stepped(u, u.files), p)
  {
  }

  lemma LessLeaves(a: Files, b: Files, p: Path, n: Name)
    requires Lessened(a, b, p + [n])
    ensures forall q | Under(q, p) && !Under(q, p + [n]) :: q in a <==> q in b
    ensures p in a ==> p in b && b[p] == a[p]
  {
    forall q | Under(q, p) && !Under(q, p + [n]) ensures q in a <==> q in b {
      assert SameAt(a, b, q);
    }
    assert SameAt(a, b, p);
  }

  lemma LessIsShallow(a: Files, b: Files, p: Path, top: Path, depth: nat)
    requires Lessened(a, b, top) && Shallow(a, p, depth)
    ensures Shallow(b, p, depth)
  {
    assert forall q | q in b :: q in a;
  }

  /** Removes a file, or a folder with everything in it, from the bottom up. */
  method RemoveAll(disk: Disk, p: Path, ghost depth: nat) returns (ok: bool)
    requires disk.Valid() && p in disk.files && p != [] && Shallow(disk.files, p, depth)
    modifies disk
    ensures disk.Valid() && AllLessened(old(disk.Now()), disk.Now(), p) && disk.tried >= old(disk.tried)
    ensures ok ==> NothingIn(disk.files, p)
    ensures disk.world.NoFailure(old(disk.tried)) ==> ok
    decreases depth, 1
  {
    ghost var u := disk.Now();
    ok := disk.Look();
    if !ok {
      return;
    }
    TakenAway(u, p);
    if disk.files[p].File? {
      ok := disk.RemoveFile(p);
      NothingBelowFile(u.files, p);
    } else {
      ok := RemoveFolder(disk, p, depth);
    }
  }

  method RemoveFolder(disk: Disk, p: Path, ghost depth: nat) returns (ok: bool)
    requires disk.Valid() && IsFolder(disk.files, p) && p != [] && Shallow(disk.files, p, depth)
    modifies disk
    ensures disk.Valid() && AllLessened(old(disk.Now()), disk.Now(), p) && disk.tried >= old(disk.tried)
    ensures ok ==> NothingIn(disk.files, p)
    ensures disk.world.NoFailure(old(disk.tried)) ==> ok
    decreases depth, 0
  {
    ghost var u := disk.Now();
    var listed := disk.ReadDir(p);
    if listed.None? {
      return false;
    }
    var names := listed.value;
    AllRemain(disk.files, p, names);
    for i := 0 to |names|
      invariant disk.Valid() && AllLessened(u, disk.Now(), p) && disk.tried >= old(disk.tried)
      invariant IsFolder(disk.files, p) && Shallow(disk.files, p, depth) && Remaining(disk.files, p, names, i)
    {
      ghost var v := disk.Now();
      ChildIsShallow(v.files, p, names[i], depth);
      assert Under(p + [names[i]], p) && p + [names[i]] != [];
      ok := RemoveAll(disk, p + [names[i]], depth - 1);
      LessenedChain(u, v, disk.Now(), p + [names[i]], p);
      if !ok {
        return;
      }
      LessLeaves(v.files, disk.files, p, names[i]);
      LessIsShallow(v.files, disk.files, p, p + [names[i]], depth);
      OneLess(v.files, disk.files, p, names, i);
    }
    ok := Empty(disk, p, names, u);
  }

  method Empty(disk: Disk, p: Path, names: seq<Name>, ghost u: Trace) returns (ok: bool)
    requires disk.Valid() && IsFolder(disk.files, p) && p != [] && Remaining(disk.files, p, names, |names|)
    requires AllLessened(u, disk.Now(), p)
    modifies disk
    ensures disk.Valid() && AllLessened(u, disk.Now(), p) && disk.tried >= old(disk.tried)
    ensures ok ==> NothingIn(disk.files, p)
    ensures disk.world.NoFailure(old(disk.tried)) ==> ok
  {
    ghost var v := disk.Now();
    NoneRemain(disk.files, p, names);
    ok := disk.RemoveDir(p);
    TakenAway(v, p);
    LessenedChain(u, v, disk.Now(), p, p);
  }

  // ---- Copying ---------------------------------------------------------------------------

  ghost predicate AllUnderway(u: Trace, v: Trace, src: Path, dst: Path)
    requires dst != []
  {
    && u.history <= v.history && v.copies == u.copies && Underway(u.files, v.files, src, dst)
    && forall i {:trigger v.history[i]} | |u.history| <= i < |v.history| :: Underway(u.files, v.history[i], src, dst)
  }

  lemma UnderwayStep(u: Trace, v: Trace, x: Files, src: Path, dst: Path)
    requires dst != [] && AllUnderway(u, v, src, dst) && Underway(u.files, x, src, dst)
    ensures AllUnderway(u, Stepped(v, x), src, dst)
  {
  }

  lemma ChildrenUnderway(u: Trace, v: Trace, w: Trace, src: Path, dst: Path, n: Name)
    requires dst != [] && Apart(src, dst) && IsFolder(u.files, src) && src + [n] in v.files
    requires AllUnderway(u, v, src, dst) && AllUnderway(v, w, src + [n], dst + [n])
    ensures AllUnderway(u, w, src, dst)
  {
    ChildUnderway(u.files, v.files, w.files, src, dst, n);
    forall i | |u.history| <= i < |w.history| ensures Underway(u.files, w.history[i], src, dst) {
      if i < |v.history| {
        assert w.history[i] == v.history[i];
      } else {
        ChildUnderway(u.files, v.files, w.history[i], src, dst, n);
      }
    }
  }

  /** What a copy may begin with. */
  ghost predicate MayCopy(files: Files, src: Path, dst: Path) {
    && src in files && src != [] && dst != [] && dst !in files && IsFolder(files, Parent(dst))
    && Apart(src, dst) && Parent(src) != Parent(dst)
  }

  /** No folder is in the way of a temporary name. */
  ghost predicate Clear(files: Files, src: Path, dst: Path)
    requires dst != []
  {
    PlainFolders(files) && (IsFolder(files, src) ==> Real(dst))
  }

  /** Takes the temporary name from whatever file has it. */
  method ClearTemporary(disk: Disk, src: Path, dst: Path, ghost u: Trace) returns (ok: bool)
    requires disk.Valid() && MayCopy(u.files, src, dst) && IsFile(u.files, src) && AllUnderway(u, disk.Now(), src, dst)
    requires disk.files == u.files
    modifies disk
    ensures disk.Valid() && AllUnderway(u, disk.Now(), src, dst) && disk.tried >= old(disk.tried)
    ensures ok ==> Temp(dst) !in disk.files && !IsFolder(u.files, Temp(dst))
    ensures dst !in disk.files
    ensures disk.world.NoFailure(old(disk.tried)) && !IsFolder(u.files, Temp(dst)) ==> ok
  {
    var temporary := Temp(dst);
    ghost var v := disk.Now();
    TempIsNotSource(u.files, src, dst);
    if temporary !in disk.files {
      ok := true;
    } else if disk.files[temporary].Folder? {
      ok := false;
    } else {
      ok := disk.RemoveFile(temporary);
      if ok {
        UnderwayScribbled(u.files, v.files, disk.files, src, dst);
      }
      UnderwayStep(u, v, disk.files, src, dst);
    }
  }

  lemma TempIsNotSource(files: Files, src: Path, dst: Path)
    requires MayCopy(files, src, dst)
    ensures src != Temp(dst) && !Under(Temp(dst), src) && Temp(dst) != []
  {
    TempIsOutside(src, dst);
    TempIsBeside(dst);
    assert Under(src, src);
  }

  /** Copies a file under its temporary name. */
  method WriteTemporary(disk: Disk, src: Path, dst: Path, ghost u: Trace) returns (ok: bool)
    requires disk.Valid() && MayCopy(u.files, src, dst) && IsFile(u.files, src) && AllUnderway(u, disk.Now(), src, dst)
    requires Temp(dst) !in disk.files && !IsFolder(u.files, Temp(dst)) && dst !in disk.files
    modifies disk
    ensures disk.Valid() && AllUnderway(u, disk.Now(), src, dst) && disk.tried >= old(disk.tried) && dst !in disk.files
    ensures ok ==> IsFile(disk.files, Temp(dst)) && disk.files[Temp(dst)].content == u.files[src].content
    ensures disk.world.NoFailure(old(disk.tried)) ==> ok
  {
    var temporary := Temp(dst);
    ghost var v := disk.Now();
    TempIsNotSource(u.files, src, dst);
    assert Under(src, src) && SameAt(u.files, v.files, src);
    FolderOfCopyStays(u.files, v.files, src, dst);
    ghost var mid: Files;
    ok, mid := disk.CopyFile(src, temporary);
    UnderwayScribbled(u.files, v.files, mid, src, dst);
    UnderwayStep(u, v, mid, src, dst);
    UnderwayScribbled(u.files, v.files, disk.files, src, dst);
    UnderwayStep(u, Stepped(v, mid), disk.files, src, dst);
    assert SameAt(u.files, disk.files, src);
    if !ok {
      return;
    }
    ok := disk.Look();
    if ok && disk.files[temporary].content != disk.files[src].content {
      Discard(disk, src, dst, u);
      ok := false;
    }
  }

  /** The folder the copy goes to stands. */
  lemma FolderOfCopyStays(a: Files, x: Files, src: Path, dst: Path)
    requires MayCopy(a, src, dst) && Underway(a, x, src, dst)
    ensures IsFolder(x, Parent(dst))
  {
    assert !Under(Parent(dst), dst) && Parent(dst) != Temp(dst);
    assert SameAt(a, x, Parent(dst));
  }

  /** A copy that does not read back the same goes, if that works. */
  method Discard(disk: Disk, src: Path, dst: Path, ghost u: Trace)
    requires disk.Valid() && MayCopy(u.files, src, dst) && IsFile(u.files, src) && AllUnderway(u, disk.Now(), src, dst)
    requires IsFile(disk.files, Temp(dst)) && !IsFolder(u.files, Temp(dst)) && dst !in disk.files
    modifies disk
    ensures disk.Valid() && AllUnderway(u, disk.Now(), src, dst) && disk.tried >= old(disk.tried) && dst !in disk.files
  {
    ghost var v := disk.Now();
    TempIsNotSource(u.files, src, dst);
    var done := disk.RemoveFile(Temp(dst));
    if done {
      UnderwayScribbled(u.files, v.files, disk.files, src, dst);
    }
    UnderwayStep(u, v, disk.files, src, dst);
  }

  /** The copy, with the time of what was copied, takes its name. */
  method TakeItsName(disk: Disk, src: Path, dst: Path, ghost u: Trace) returns (ok: bool)
    requires disk.Valid() && WellFormed(u.files) && MayCopy(u.files, src, dst) && IsFile(u.files, src)
    requires AllUnderway(u, disk.Now(), src, dst) && dst !in disk.files
    requires IsFile(disk.files, Temp(dst)) && !IsFolder(u.files, Temp(dst))
    requires disk.files[Temp(dst)].content == u.files[src].content
    modifies disk
    ensures disk.Valid() && AllUnderway(u, disk.Now(), src, dst) && disk.tried >= old(disk.tried)
    ensures ok ==> Made(disk.world.listing, u.files, disk.files, src, dst)
    ensures disk.world.NoFailure(old(disk.tried)) ==> ok
  {
    var temporary := Temp(dst);
    ghost var v := disk.Now();
    TempIsNotSource(u.files, src, dst);
    TempIsBeside(dst);
    assert Under(src, src) && SameAt(u.files, v.files, src);
    disk.SetModified(temporary, disk.files[src].modified);
    UnderwayScribbled(u.files, v.files, disk.files, src, dst);
    UnderwayStep(u, v, disk.files, src, dst);
    ghost var w := disk.Now();
    FolderOfCopyStays(u.files, w.files, src, dst);
    var r := disk.Rename(temporary, dst);
    ok := r.Taken?;
    if ok {
      RenamedFileAlone(w.files, temporary, dst);
      CopyInPlace(disk.world.listing, u.files, w.files, disk.files, src, dst);
    }
    UnderwayStep(u, w, disk.files, src, dst);
  }

  lemma CopyInPlace(l: Listing, a: Files, b: Files, x: Files, src: Path, dst: Path)
    requires WellFormed(a) && MayCopy(a, src, dst) && IsFile(a, src) && Underway(a, b, src, dst) && dst !in b
    requires IsFile(b, Temp(dst)) && !IsFolder(a, Temp(dst)) && b[Temp(dst)].content == a[src].content
    requires x == (b - {Temp(dst)})[dst := b[Temp(dst)]]
    ensures Underway(a, x, src, dst) && Made(l, a, x, src, dst)
  {
    TempIsBeside(dst);
    TempIsNotSource(a, src, dst);
    forall p | p != dst && p != Temp(dst) ensures SameAt(b, x, p) {
    }
    forall p | Under(p, src) ensures SameAt(a, x, p) {
      InsideIsApart(p, src, dst);
      assert SameAt(a, b, p) && SameAt(b, x, p);
    }
    forall p | !Under(p, src) && !Under(p, dst) && p != Temp(dst) ensures SameAt(a, x, p) {
      assert SameAt(a, b, p) && SameAt(b, x, p);
    }
    assert Source(dst, src, dst) == src;
    assert Faithful(a, x, src, dst, dst);
    NothingBelowFile(a, src);
    forall q | Under(q, dst)
      ensures (q in x <==> Brought(l, a, src, Source(q, src, dst))) && (q in x ==> Faithful(a, x, src, dst, q))
    {
      SourceOf(q, src, dst);
      assert q in b ==> q == dst;
    }
  }

  /** Copies a file: under its temporary name first, and under its own only once the
      copy reads back the same. */
  method CopyOneFile(disk: Disk, src: Path, dst: Path) returns (ok: bool)
    requires disk.Valid() && MayCopy(disk.files, src, dst) && IsFile(disk.files, src)
    modifies disk
    ensures disk.Valid() && AllUnderway(old(disk.Now()), disk.Now(), src, dst) && disk.tried >= old(disk.tried)
    ensures ok ==> Made(disk.world.listing, old(disk.files), disk.files, src, dst)
    ensures disk.world.NoFailure(old(disk.tried)) && !IsFolder(old(disk.files), Temp(dst)) ==> ok
  {
    ghost var u := disk.Now();
    NothingUnder(disk.files, dst);
    UnderwayAtFirst(u.files, src, dst);
    ok := ClearTemporary(disk, src, dst, u);
    if !ok {
      return;
    }
    ok := WriteTemporary(disk, src, dst, u);
    if !ok {
      return;
    }
    ok := TakeItsName(disk, src, dst, u);
  }

  // ---- Copying folders -------------------------------------------------------------------

  /** The next child is still in the source, and nothing stands in its place. */
  lemma NextIsFree(l: Listing, a: Files, b: Files, src: Path, dst: Path, names: seq<Name>, i: nat)
    requires dst != [] && Apart(src, dst) && Distinct(names) && i < |names| && src + [names[i]] in a
    requires Underway(a, b, src, dst) && CopiedBy(l, a, b, src, dst, names, i)
    ensures MayCopy(b, src + [names[i]], dst + [names[i]]) && b[src + [names[i]]] == a[src + [names[i]]]
  {
    var child, into := src + [names[i]], dst + [names[i]];
    assert Under(child, src) && SameAt(a, b, child) && Under(src, src) && Under(into, dst);
    ChildrenAreApart(src, dst, names[i]);
    assert Parent(child) == src && Parent(into) == dst;
    assert Under(dst, dst);
    assert Source(into, src, dst)[|src|] == names[i] by {
      FirstStepOfSource(into, src, dst);
    }
    assert !BroughtBy(l, a, src, names, i, Source(into, src, dst));
  }

  lemma CopyIsShallow(a: Files, b: Files, src: Path, depth: nat)
    requires SourceWhole(a, b, src) && Shallow(a, src, depth)
    ensures Shallow(b, src, depth)
  {
    forall p | p in b && Under(p, src) ensures |p| <= |src| + depth {
      assert SameAt(a, b, p);
    }
  }

  /** No folder gets in the way while copying. */
  lemma StaysClear(a: Files, b: Files, src: Path, dst: Path, n: Name)
    requires dst != [] && Clear(a, src, dst) && IsFolder(a, src) && Underway(a, b, src, dst) && src + [n] in a
    ensures Clear(b, src + [n], dst + [n])
  {
    UnderwayPlain(a, b, src, dst);
    assert Under(src + [n], src) && SameAt(a, b, src + [n]);
    assert (src + [n])[|src|] == n && (dst + [n])[|dst|] == n;
  }

  lemma TempIsClear(files: Files, dst: Path)
    requires PlainFolders(files) && dst != []
    ensures !IsFolder(files, Temp(dst))
  {
  }

  lemma UnderwayPlain(a: Files, x: Files, src: Path, dst: Path)
    requires dst != [] && Clear(a, src, dst) && Underway(a, x, src, dst)
    ensures PlainFolders(x)
  {
    forall q | q in x && x[q].Folder? ensures Real(q) {
      if Under(q, dst) {
        assert Faithful(a, x, src, dst, q);
        SourceOf(q, src, dst);
      } else {
        assert q != Temp(dst) && !Under(q, src) ==> SameAt(a, x, q);
        assert Under(q, src) ==> SameAt(a, x, q);
      }
    }
  }

  /** Copies a file or a folder to a free place, checking that everything reads back
      the same. */
  method CopyChecked(disk: Disk, src: Path, dst: Path, ghost depth: nat) returns (ok: bool)
    requires disk.Valid() && MayCopy(disk.files, src, dst) && Shallow(disk.files, src, depth)
    modifies disk
    ensures disk.Valid() && AllUnderway(old(disk.Now()), disk.Now(), src, dst) && disk.tried >= old(disk.tried)
    ensures ok ==> Made(disk.world.listing, old(disk.files), disk.files, src, dst)
    ensures disk.world.NoFailure(old(disk.tried)) && Clear(old(disk.files), src, dst) ==> ok
    decreases depth, 1
  {
    NothingUnder(disk.files, dst);
    UnderwayAtFirst(disk.files, src, dst);
    ok := disk.Look();
    if !ok {
      return;
    }
    if disk.files[src].Folder? {
      ok := CopyFolder(disk, src, dst, depth);
    } else {
      if Clear(disk.files, src, dst) {
        TempIsClear(disk.files, dst);
      }
      ok := CopyOneFile(disk, src, dst);
    }
  }

  method CopyFolder(disk: Disk, src: Path, dst: Path, ghost depth: nat) returns (ok: bool)
    requires disk.Valid() && MayCopy(disk.files, src, dst) && IsFolder(disk.files, src) && Shallow(disk.files, src, depth)
    modifies disk
    ensures disk.Valid() && AllUnderway(old(disk.Now()), disk.Now(), src, dst) && disk.tried >= old(disk.tried)
    ensures ok ==> Made(disk.world.listing, old(disk.files), disk.files, src, dst)
    ensures disk.world.NoFailure(old(disk.tried)) && Clear(old(disk.files), src, dst) ==> ok
    decreases depth, 0
  {
    ghost var u := disk.Now();
    ok := MakeCopy(disk, src, dst);
    if !ok {
      return;
    }
    var names: seq<Name>;
    ok, names := ListSource(disk, src, dst, u);
    if !ok {
      return;
    }
    NothingUnder(u.files, dst);
    NoneCopied(disk.world.listing, u.files, src, dst, names);
    ok := CopyChildren(disk, src, dst, names, depth, u);
    if ok {
      AllCopied(disk.world.listing, u.files, disk.files, src, dst, names);
    }
  }

  /** The copy's folder. */
  method MakeCopy(disk: Disk, src: Path, dst: Path) returns (ok: bool)
    requires disk.Valid() && MayCopy(disk.files, src, dst) && IsFolder(disk.files, src)
    modifies disk
    ensures disk.Valid() && AllUnderway(old(disk.Now()), disk.Now(), src, dst) && disk.tried >= old(disk.tried)
    ensures ok ==> disk.files == old(disk.files)[dst := Folder(0)]
    ensures disk.world.NoFailure(old(disk.tried)) ==> ok
  {
    ghost var u := disk.Now();
    NothingUnder(disk.files, dst);
    UnderwayAtFirst(u.files, src, dst);
    NoneCopied(disk.world.listing, u.files, src, dst, []);
    ok := disk.MakeDir(dst);
    UnderwayStep(u, u, disk.files, src, dst);
  }

  method CopyChildren(disk: Disk, src: Path, dst: Path, names: seq<Name>, ghost depth: nat, ghost u: Trace) returns (ok: bool)
    requires disk.Valid() && MayCopy(u.files, src, dst) && IsFolder(u.files, src) && Shallow(u.files, src, depth)
    requires Distinct(names) && forall n :: n in names <==> src + [n] in u.files
    requires AllUnderway(u, disk.Now(), src, dst) && CopiedBy(disk.world.listing, u.files, disk.files, src, dst, names, 0)
    modifies disk
    ensures disk.Valid() && AllUnderway(u, disk.Now(), src, dst) && disk.tried >= old(disk.tried)
    ensures ok ==> CopiedBy(disk.world.listing, u.files, disk.files, src, dst, names, |names|)
    ensures disk.world.NoFailure(old(disk.tried)) && Clear(u.files, src, dst) ==> ok
    decreases depth, 0, 1
  {
    for i := 0 to |names|
      invariant disk.Valid() && AllUnderway(u, disk.Now(), src, dst) && disk.tried >= old(disk.tried)
      invariant CopiedBy(disk.world.listing, u.files, disk.files, src, dst, names, i)
    {
      ok := CopyChild(disk, src, dst, names, i, depth, u);
      if !ok {
        return;
      }
    }
    ok := true;
  }

  /** Lists the source, which is as it was when the copy began. */
  method ListSource(disk: Disk, src: Path, dst: Path, ghost u: Trace) returns (ok: bool, names: seq<Name>)
    requires disk.Valid() && dst != [] && IsFolder(u.files, src) && Underway(u.files, disk.files, src, dst)
    modifies disk`tried
    ensures disk.Valid() && disk.tried == old(disk.tried) + 1 && disk.files == old(disk.files)
    ensures ok == disk.world.plan(old(disk.tried)).Works?
    ensures ok ==> names == disk.world.listing(src, ChildNames(u.files, src))
    ensures ok ==> Distinct(names) && forall n :: n in names <==> src + [n] in u.files
  {
    assert Under(src, src) && SameAt(u.files, disk.files, src);
    var listed := disk.ReadDir(src);
    names := [];
    ok := listed.Some?;
    if ok {
      names := listed.value;
      ChildrenAreThere(u.files, src);
      ChildrenAreThere(disk.files, src);
      forall n ensures src + [n] in u.files <==> src + [n] in disk.files {
        assert Under(src + [n], src) && SameAt(u.files, disk.files, src + [n]);
      }
      assert ChildNames(disk.files, src) == ChildNames(u.files, src);
    }
  }

  method CopyChild(disk: Disk, src: Path, dst: Path, names: seq<Name>, i: nat, ghost depth: nat, ghost u: Trace)
    returns (ok: bool)
    requires disk.Valid() && MayCopy(u.files, src, dst) && IsFolder(u.files, src) && Shallow(u.files, src, depth)
    requires Distinct(names) && i < |names| && forall n :: n in names <==> src + [n] in u.files
    requires AllUnderway(u, disk.Now(), src, dst) && CopiedBy(disk.world.listing, u.files, disk.files, src, dst, names, i)
    modifies disk
    ensures disk.Valid() && AllUnderway(u, disk.Now(), src, dst) && disk.tried >= old(disk.tried)
    ensures ok ==> CopiedBy(disk.world.listing, u.files, disk.files, src, dst, names, i + 1)
    ensures disk.world.NoFailure(old(disk.tried)) && Clear(u.files, src, dst) ==> ok
    decreases depth, 0, 0
  {
    ghost var v, l, n := disk.Now(), disk.world.listing, names[i];
    assert n in names;
    NextIsFree(l, u.files, v.files, src, dst, names, i);
    CopyIsShallow(u.files, v.files, src, depth);
    ChildIsShallow(v.files, src, n, depth);
    if Clear(u.files, src, dst) {
      StaysClear(u.files, v.files, src, dst, n);
    }
    ok := CopyChecked(disk, src + [names[i]], dst + [names[i]], depth - 1);
    ChildrenUnderway(u, v, disk.Now(), src, dst, n);
    if ok {
      OneMoreCopied(l, u.files, v.files, disk.files, src, dst, names, i);
    }
  }

  // ---- Copying and then deleting -----------------------------------------------------------

  /** First a copy under way, then, from the `m`-th state on, the copy made. */
  ghost predicate CopiedThenDeleted(l: Listing, u: Trace, v: Trace, src: Path, dst: Path, m: nat)
    requires dst != []
  {
    && u.history <= v.history && |u.history| <= m <= |v.history|
    && (forall i {:trigger v.history[i]} | |u.history| <= i < m :: Underway(u.files, v.history[i], src, dst))
    && (forall i {:trigger v.history[i]} | m <= i < |v.history| :: Made(l, u.files, v.history[i], src, dst))
    && (Underway(u.files, v.files, src, dst) || Made(l, u.files, v.files, src, dst))
    && v.copies == u.copies + [Copying(u.files, Gone(l, u.files, src, dst))]
  }

  /** Removes what there is of the copy. */
  method RemovePartialCopy(disk: Disk, src: Path, dst: Path, ghost u: Trace)
    requires disk.Valid() && dst != [] && Apart(src, dst) && AllUnderway(u, disk.Now(), src, dst)
    modifies disk
    ensures disk.Valid() && AllUnderway(u, disk.Now(), src, dst) && disk.tried >= old(disk.tried)
  {
    if dst in disk.files {
      ghost var v := disk.Now();
      ghost var depth := SomeDepth(disk.files, dst);
      var done := RemoveAll(disk, dst, depth);
      UnderwayLess(u.files, v.files, disk.files, src, dst);
      forall i | |u.history| <= i < |disk.history| ensures Underway(u.files, disk.history[i], src, dst) {
        if i < |v.history| {
          assert disk.history[i] == v.history[i];
        } else {
          UnderwayLess(u.files, v.files, disk.history[i], src, dst);
        }
      }
    }
  }

  /** Deletes the source once its copy is made. */
  method RemoveSource(disk: Disk, src: Path, dst: Path, ghost u: Trace) returns (ok: bool)
    requires disk.Valid() && MayCopy(u.files, src, dst) && src in disk.files
    requires Made(disk.world.listing, u.files, disk.files, src, dst)
    modifies disk
    ensures disk.Valid() && disk.tried >= old(disk.tried)
    ensures old(disk.history) <= disk.history && disk.copies == old(disk.copies)
    ensures Made(disk.world.listing, u.files, disk.files, src, dst)
    ensures forall i {:trigger disk.history[i]} | |old(disk.history)| <= i < |disk.history| ::
              Made(disk.world.listing, u.files, disk.history[i], src, dst)
    ensures ok ==> NothingIn(disk.files, src)
    ensures disk.world.NoFailure(old(disk.tried)) ==> ok
  {
    ghost var v := disk.Now();
    ghost var depth := SomeDepth(disk.files, src);
    ok := RemoveAll(disk, src, depth);
    MadeLess(disk.world.listing, u.files, v.files, disk.files, src, dst);
    forall i | |v.history| <= i < |disk.history| ensures Made(disk.world.listing, u.files, disk.history[i], src, dst) {
      MadeLess(disk.world.listing, u.files, v.files, disk.history[i], src, dst);
    }
  }

  /** Copies something to another volume, then deletes it where it was. A copy that
      fails is removed again. */
  method CopyThenDelete(disk: Disk, src: Path, dst: Path) returns (ok: bool, ghost m: nat)
    requires disk.Valid() && MayCopy(disk.files, src, dst)
    modifies disk
    ensures disk.Valid() && disk.tried >= old(disk.tried)
    ensures CopiedThenDeleted(disk.world.listing, old(disk.Now()), disk.Now(), src, dst, m)
    ensures ok ==> Made(disk.world.listing, old(disk.files), disk.files, src, dst) && NothingIn(disk.files, src)
    ensures disk.world.NoFailure(old(disk.tried)) && Clear(old(disk.files), src, dst) ==> ok
  {
    ghost var u := disk.Now();
    ghost var depth := SomeDepth(disk.files, src);
    ok := CopyChecked(disk, src, dst, depth);
    if !ok {
      RemovePartialCopy(disk, src, dst, u);
      m := |disk.history|;
    } else {
      m := |disk.history|;
      ghost var v := disk.Now();
      assert Under(src, src) && SameAt(u.files, disk.files, src);
      ok := RemoveSource(disk, src, dst, u);
      assert forall i | |u.history| <= i < m :: disk.history[i] == v.history[i];
    }
    disk.Note(Copying(u.files, Gone(disk.world.listing, u.files, src, dst)));
  }

  // ---- What every moment of it is like -----------------------------------------------------

  /** The source is whole until its deletion begins, and by then all that is brought
      along stands in the copy. */
  lemma WholeUntilCopied(l: Listing, u: Trace, v: Trace, src: Path, dst: Path, m: nat, i: nat, p: Path)
    requires dst != [] && CopiedThenDeleted(l, u, v, src, dst, m) && |u.history| <= i < |v.history| && Under(p, src)
    ensures i < m ==> SameAt(u.files, v.history[i], p)
    ensures m <= i && Brought(l, u.files, src, p) ==>
              Moved(p, src, dst) in v.history[i] && Alike(u.files[p], v.history[i][Moved(p, src, dst)])
  {
    var x := v.history[i];
    if i < m {
      assert Underway(u.files, x, src, dst);
    } else {
      assert Made(l, u.files, x, src, dst);
      SourceOfMoved(p, src, dst);
      if Brought(l, u.files, src, p) {
        assert Faithful(u.files, x, src, dst, Moved(p, src, dst));
      }
    }
  }

  /** At no moment does the copy hold a file under a real name that is not the one it
      is the copy of. */
  lemma NothingPartialHasARealName(l: Listing, u: Trace, v: Trace, src: Path, dst: Path, m: nat, i: nat, q: Path)
    requires dst != [] && CopiedThenDeleted(l, u, v, src, dst, m) && |u.history| <= i < |v.history|
    requires q in v.history[i] && v.history[i][q].File? && Under(q, dst) && Real(q)
    ensures Holds(u.files, Source(q, src, dst), v.history[i][q].content)
  {
    var x := v.history[i];
    if i < m {
      assert Underway(u.files, x, src, dst);
    } else {
      assert Made(l, u.files, x, src, dst);
    }
    assert Faithful(u.files, x, src, dst, q);
  }
}
