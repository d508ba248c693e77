/** The first thing a migration does: it deletes every file with a temporary name in
    the folders it will write into, whoever made it. */
module LeftoverSweep {
  import opened Wrappers
  import opened DiskModel
  import opened BesideNames
  import opened TemporaryNames
  import opened FolderWalks
  import opened LayoutKeeps
  import opened LayoutRuns
  import opened Disks
  import opened CopyStates
  import opened LayoutCopy

  predicate Inside(tops: seq<Path>, p: Path) {
    exists k :: 0 <= k < |tops| && Under(p, tops[k]) && p != tops[k]
  }

  /** A file inside a swept folder, under a temporary name. */
  predicate Leftover(a: Files, tops: seq<Path>, p: Path) {
    IsFile(a, p) && !Real(p) && Inside(tops, p)
  }

  /** Nothing is missing but leftovers. */
  ghost predicate Swept(a: Files, x: Files, tops: seq<Path>) {
    && (forall p {:trigger p in x} | p in x :: p in a && x[p] == a[p])
    && (forall p {:trigger p in a} | p in a && p !in x :: Leftover(a, tops, p))
  }

  ghost predicate SweepRun(u: Trace, v: Trace, tops: seq<Path>) {
    && u.history <= v.history && v.copies == u.copies && Swept(u.files, v.files, tops)
    && forall i {:trigger v.history[i]} | |u.history| <= i < |v.history| :: Swept(u.files, v.history[i], tops)
  }

  /** No file inside has a temporary name. */
  ghost predicate Clean(x: Files, top: Path) {
    forall p {:trigger p in x} | p in x && Under(p, top) && p != top && x[p].File? :: Real(p)
  }

  ghost predicate Cleaned(x: Files, tops: seq<Path>) {
    forall k {:trigger tops[k]} | 0 <= k < |tops| :: Clean(x, tops[k])
  }

  ghost predicate CleanBelow(x: Files, top: Path) {
    forall p {:trigger p in x} | p in x && Under(p, top) && x[p].File? :: Real(p)
  }

  ghost predicate CleanBy(x: Files, folder: Path, names: seq<Name>, i: nat)
    requires i <= |names|
  {
    forall m {:trigger names[m]} | 0 <= m < i :: CleanBelow(x, folder + [names[m]])
  }

  lemma SweepStep(u: Trace, v: Trace, p: Path, tops: seq<Path>)
    requires SweepRun(u, v, tops) && (p in v.files ==> Leftover(v.files, tops, p))
    ensures SweepRun(u, Stepped(v, v.files - {p}), tops) && SweepRun(u, Stepped(v, v.files), tops)
  {
  }

  lemma SweptKeepsFolders(a: Files, x: Files, tops: seq<Path>, p: Path)
    requires Swept(a, x, tops)
    ensures IsFolder(a, p) <==> IsFolder(x, p)
  {
  }

  lemma LessIsClean(b: Files, c: Files, folder: Path, names: seq<Name>, i: nat, p: Path)
    requires i <= |names| && CleanBy(b, folder, names, i) && Lessened(b, c, p)
    ensures CleanBy(c, folder, names, i)
  {
    forall m | 0 <= m < i ensures CleanBelow(c, folder + [names[m]]) {
      assert CleanBelow(b, folder + [names[m]]);
    }
  }

  lemma AllClean(b: Files, c: Files, folder: Path, names: seq<Name>)
    requires WellFormed(b) && (forall n :: n in names <==> folder + [n] in b) && Lessened(b, c, folder)
    requires CleanBy(c, folder, names, |names|)
    ensures Clean(c, folder)
  {
    forall p | p in c && Under(p, folder) && p != folder && c[p].File? ensures Real(p) {
      FirstStepInside(b, p, folder);
      var m :| 0 <= m < |names| && names[m] == p[|folder|];
      assert CleanBelow(c, folder + [names[m]]);
    }
  }

  lemma InsideToo(tops: seq<Path>, k: nat, folder: Path, p: Path)
    requires k < |tops| && Under(folder, tops[k]) && Under(p, folder) && p != folder
    ensures Inside(tops, p)
  {
    PrefixChain(tops[k], folder, p);
    assert |p| > |folder| >= |tops[k]| by {
      PrefixIs(p, folder);
    }
  }

  lemma LessenedItself(a: Files, p: Path)
    ensures Lessened(a, a, p)
  {
  }

  /** Removes the files with temporary names in a folder and the folders in it. */
  method RemoveCopiesIn(disk: Disk, folder: Path, ghost k: nat, ghost tops: seq<Path>, ghost depth: nat, ghost u: Trace)
    returns (ok: bool)
    requires disk.Valid() && IsFolder(disk.files, folder) && Shallow(disk.files, folder, depth)
    requires k < |tops| && Under(folder, tops[k]) && SweepRun(u, disk.Now(), tops)
    modifies disk
    ensures disk.Valid() && SweepRun(u, disk.Now(), tops) && Lessened(old(disk.files), disk.files, folder)
    ensures ok ==> Clean(disk.files, folder)
    ensures disk.tried >= old(disk.tried) && (disk.world.NoFailure(old(disk.tried)) ==> ok)
    decreases depth, 1
  {
    ghost var b := disk.files;
    LessenedItself(b, folder);
    var listed := disk.ReadDir(folder);
    if listed.None? {
      return false;
    }
    var names := listed.value;
    ok := RemoveCopiesOf(disk, folder, names, k, tops, depth, u);
    if ok {
      AllClean(b, disk.files, folder, names);
    }
  }

  method RemoveCopiesOf(disk: Disk, folder: Path, names: seq<Name>, ghost k: nat, ghost tops: seq<Path>,
                        ghost depth: nat, ghost u: Trace) returns (ok: bool)
    requires disk.Valid() && Shallow(disk.files, folder, depth) && Distinct(names)
    requires forall m {:trigger names[m]} | 0 <= m < |names| :: folder + [names[m]] in disk.files
    requires k < |tops| && Under(folder, tops[k]) && SweepRun(u, disk.Now(), tops)
    modifies disk
    ensures disk.Valid() && SweepRun(u, disk.Now(), tops) && Lessened(old(disk.files), disk.files, folder)
    ensures ok ==> CleanBy(disk.files, folder, names, |names|)
    ensures disk.tried >= old(disk.tried) && (disk.world.NoFailure(old(disk.tried)) ==> ok)
    decreases depth, 0, 1
  {
    ghost var b := disk.files;
    LessenedItself(b, folder);
    for i := 0 to |names|
      invariant disk.Valid() && SweepRun(u, disk.Now(), tops) && disk.tried >= old(disk.tried)
      invariant PartSwept(b, disk.files, folder, names, i)
    {
      ghost var c := disk.files;
      LessIsShallow(b, c, folder, folder, depth);
      ok := RemoveCopiesAt(disk, folder, names[i], k, tops, depth, u);
      OneMoreSwept(b, c, disk.files, folder, names, i);
      if !ok {
        return;
      }
    }
    ok := true;
  }

  ghost predicate PartSwept(b: Files, x: Files, folder: Path, names: seq<Name>, i: nat)
    requires i <= |names|
  {
    && Lessened(b, x, folder) && CleanBy(x, folder, names, i)
    && forall m {:trigger names[m]} | i <= m < |names| :: folder + [names[m]] in x
  }

  lemma OneMoreSwept(b: Files, c: Files, x: Files, folder: Path, names: seq<Name>, i: nat)
    requires Distinct(names) && i < |names| && PartSwept(b, c, folder, names, i) && Lessened(c, x, folder + [names[i]])
    ensures Lessened(b, x, folder)
    ensures CleanBelow(x, folder + [names[i]]) ==> PartSwept(b, x, folder, names, i + 1)
  {
    assert Under(folder + [names[i]], folder);
    LessenedOn(b, c, x, folder + [names[i]], folder);
    LessIsClean(c, x, folder, names, i, folder + [names[i]]);
    OthersStay(c, x, folder, names, i);
  }

  lemma OthersStay(b: Files, c: Files, folder: Path, names: seq<Name>, i: nat)
    requires Distinct(names) && i < |names| && Lessened(b, c, folder + [names[i]])
    requires forall m {:trigger names[m]} | i <= m < |names| :: folder + [names[m]] in b
    ensures forall m {:trigger names[m]} | i + 1 <= m < |names| :: folder + [names[m]] in c
  {
    forall m | i + 1 <= m < |names| ensures folder + [names[m]] in c {
      OtherChild(folder, names[m], names[i]);
      assert SameAt(b, c, folder + [names[m]]);
    }
  }

  method RemoveCopiesAt(disk: Disk, folder: Path, n: Name, ghost k: nat, ghost tops: seq<Path>, ghost depth: nat, ghost u: Trace)
    returns (ok: bool)
    requires disk.Valid() && folder + [n] in disk.files && Shallow(disk.files, folder, depth)
    requires k < |tops| && Under(folder, tops[k]) && SweepRun(u, disk.Now(), tops)
    modifies disk
    ensures disk.Valid() && SweepRun(u, disk.Now(), tops) && Lessened(old(disk.files), disk.files, folder + [n])
    ensures ok ==> CleanBelow(disk.files, folder + [n])
    ensures disk.tried >= old(disk.tried) && (disk.world.NoFailure(old(disk.tried)) ==> ok)
    decreases depth, 0, 0
  {
    var p := folder + [n];
    ghost var v := disk.Now();
    LessenedItself(v.files, p);
    assert Under(p, folder) && p[|p| - 1] == n;
    InsideToo(tops, k, folder, p);
    ok := true;
    if disk.files[p].Folder? {
      ChildIsShallow(v.files, folder, n, depth);
      PrefixChain(tops[k], folder, p);
      ok := RemoveCopiesIn(disk, p, k, tops, depth - 1, u);
      SweptKeepsFolders(u.files, v.files, tops, p);
      SweptKeepsFolders(u.files, disk.files, tops, p);
    } else {
      NothingBelowFile(v.files, p);
      if IsTemporary(n) {
        SweepStep(u, v, p, tops);
        ok := disk.RemoveFile(p);
      }
    }
  }

  /** Removes them in every one of the folders there are. */
  method RemoveLeftoverCopies(disk: Disk, tops: seq<Path>) returns (ok: bool)
    requires disk.Valid()
    modifies disk
    ensures disk.Valid() && SweepRun(old(disk.Now()), disk.Now(), tops) && disk.tried >= old(disk.tried)
    ensures ok ==> Cleaned(disk.files, tops)
    ensures disk.world.NoFailure(old(disk.tried)) && (forall k | 0 <= k < |tops| :: !IsFile(old(disk.files), tops[k])) ==> ok
  {
    ghost var u := disk.Now();
    for k := 0 to |tops|
      invariant disk.Valid() && SweepRun(u, disk.Now(), tops) && disk.tried >= old(disk.tried)
      invariant CleanedBy(disk.files, tops, k)
    {
      ghost var b := disk.files;
      ok := RemoveCopiesInTop(disk, tops, k, u);
      if !ok {
        return;
      }
      CleanedOn(b, disk.files, tops, k);
    }
    ok := true;
  }

  ghost predicate CleanedBy(x: Files, tops: seq<Path>, n: nat) {
    forall k {:trigger tops[k]} | 0 <= k < |tops| && k < n :: Clean(x, tops[k])
  }

  lemma CleanedOn(b: Files, c: Files, tops: seq<Path>, n: nat)
    requires n < |tops| && CleanedBy(b, tops, n) && Clean(c, tops[n]) && forall p | p in c :: p in b && c[p] == b[p]
    ensures CleanedBy(c, tops, n + 1)
  {
    forall k | 0 <= k < n + 1 ensures Clean(c, tops[k]) {
      assert k < n ==> Clean(b, tops[k]);
    }
  }

  method RemoveCopiesInTop(disk: Disk, tops: seq<Path>, k: nat, ghost u: Trace) returns (ok: bool)
    requires disk.Valid() && k < |tops| && SweepRun(u, disk.Now(), tops)
    modifies disk
    ensures disk.Valid() && SweepRun(u, disk.Now(), tops) && Lessened(old(disk.files), disk.files, tops[k])
    ensures ok ==> Clean(disk.files, tops[k])
    ensures disk.tried >= old(disk.tried)
    ensures disk.world.NoFailure(old(disk.tried)) && !IsFile(u.files, tops[k]) ==> ok
  {
    LessenedItself(disk.files, tops[k]);
    if tops[k] !in disk.files {
      NothingUnder(disk.files, tops[k]);
      ok := true;
    } else if disk.files[tops[k]].File? {
      ok := false;
    } else {
      ghost var depth := SomeDepth(disk.files, tops[k]);
      ok := RemoveCopiesIn(disk, tops[k], k, tops, depth, u);
    }
  }

  // ---- What the sweep costs --------------------------------------------------------------

  /** A sweep that goes through takes the leftovers and nothing else. */
  lemma SweepIsExact(a: Files, x: Files, tops: seq<Path>, p: Path)
    requires Swept(a, x, tops) && Cleaned(x, tops)
    ensures p in x <==> p in a && !Leftover(a, tops, p)
    ensures p in x ==> x[p] == a[p]
  {
    if p in x && Inside(tops, p) {
      var k :| 0 <= k < |tops| && Under(p, tops[k]) && p != tops[k];
      assert Clean(x, tops[k]);
    }
  }
}
