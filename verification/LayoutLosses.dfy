/** When a copy to another volume loses something: exactly when a file stood under a
    temporary name it used and no file that is left holds the same. Two runs show it. */
module LayoutLosses {
  import opened Wrappers
  import opened DiskModel
  import opened BesideNames
  import opened TemporaryNames
  import opened FolderWalks
  import opened LayoutKeeps
  import opened LayoutRuns
  import opened Disks
  import opened CopyStates
  import opened LayoutCopy
  import opened CopyKeeps
  import opened LayoutMoves

  /** What a file under the temporary name holds another file holds too. */
  ghost predicate TempHeldElsewhere(a: Files, dst: Path)
    requires dst != []
  {
    IsFile(a, Temp(dst)) ==> exists q :: q != Temp(dst) && Holds(a, q, a[Temp(dst)].content)
  }

  /** In a folder of `src` listed before the file whose temporary name it has. */
  predicate ClearedInside(l: Listing, a: Files, src: Path, p: Path) {
    p in a && Under(p, src) && p != src && Cleared(l, a, p)
  }

  /** What files listed so hold a file not listed so holds too. */
  ghost predicate ClearedHeldElsewhere(l: Listing, a: Files, src: Path) {
    forall p {:trigger ClearedInside(l, a, src, p)} | ClearedInside(l, a, src, p) ::
      exists q :: !ClearedInside(l, a, src, q) && Holds(a, q, a[p].content)
  }

  lemma SparedIffHeldElsewhere(l: Listing, a: Files, src: Path, dst: Path)
    requires MayCopy(a, src, dst)
    ensures Spared(Copying(a, Gone(l, a, src, dst)), iset{}) <==>
              if IsFile(a, src) then TempHeldElsewhere(a, dst) else ClearedHeldElsewhere(l, a, src)
  {
    var gone := Gone(l, a, src, dst);
    var c := Copying(a, gone);
    forall q ensures q in Also(gone, iset{}) <==> q in gone {
    }
    if IsFile(a, src) {
      assert IsFile(a, Temp(dst)) ==> Temp(dst) in gone;
    } else {
      forall p ensures p in gone <==> ClearedInside(l, a, src, p) {
      }
      if Spared(c, iset{}) {
        forall p | ClearedInside(l, a, src, p)
          ensures exists q :: !ClearedInside(l, a, src, q) && Holds(a, q, a[p].content)
        {
          ClearedIsTemporary(l, a, p);
          assert p in c.gone && HasContent(a, a[p].content, Also(gone, iset{}));
        }
      }
      if ClearedHeldElsewhere(l, a, src) {
        forall p | p in gone && a[p].File? ensures HasContent(a, a[p].content, Also(gone, iset{})) {
          assert ClearedInside(l, a, src, p);
        }
      }
    }
  }

  lemma SurvivedIsSpared(c: Copying, x: Files)
    requires OnlyLeft(c, x) && Survives(c.before, x, iset{})
    ensures Spared(c, iset{})
  {
    forall p | p in c.gone && p in c.before && c.before[p].File?
      ensures HasContent(c.before, c.before[p].content, Also(c.gone, iset{}))
    {
      assert HasContent(x, c.before[p].content, iset{});
      var q :| Holds(x, q, c.before[p].content);
    }
  }

  lemma SparedSurvives(a: Files, x: Files, c: Copying, src: Path, dst: Path)
    requires StateKept(a, x, [c], src, dst) && Spared(c, iset{})
    ensures Survives(a, x, iset{})
  {
    assert [c][0] == c;
    assert AllSpared([c], iset{}) && Closed(iset{}, src, dst);
  }

  /** What one copy that goes through costs, in terms of the disk it began on: of a file,
      something only where the one file under its temporary name was alone in holding
      what it held; of a folder, something only where all files that held the same were
      listed before the one whose temporary name they had. */
  lemma CopySurvivesIff(l: Listing, a: Files, x: Files, src: Path, dst: Path)
    requires WellFormed(a) && MayCopy(a, src, dst) && Made(l, a, x, src, dst) && NothingIn(x, src)
    ensures Survives(a, x, iset{}) <==> if IsFile(a, src) then TempHeldElsewhere(a, dst) else ClearedHeldElsewhere(l, a, src)
  {
    var c := Copying(a, Gone(l, a, src, dst));
    NearSelf(dst);
    MadeLeaves(l, a, x, src, dst, dst);
    MadeKept(l, a, x, src, dst, dst);
    SparedIffHeldElsewhere(l, a, src, dst);
    if Survives(a, x, iset{}) {
      SurvivedIsSpared(c, x);
    }
    if Spared(c, iset{}) {
      SparedSurvives(a, x, c, src, dst);
    }
  }

  /** What only a file cleared away holds is lost. */
  lemma GoneIsLost(l: Listing, a: Files, x: Files, src: Path, dst: Path, p: Path)
    requires WellFormed(a) && MayCopy(a, src, dst) && Made(l, a, x, src, dst) && NothingIn(x, src)
    requires p in Gone(l, a, src, dst) && IsFile(a, p) && forall q | q in a && a[q].File? && q != p :: a[q].content != a[p].content
    ensures !HasContent(x, a[p].content, iset{}) && !Survives(a, x, iset{})
  {
    NearSelf(dst);
    MadeLeaves(l, a, x, src, dst, dst);
    forall q | q in x && x[q].File? ensures x[q].content != a[p].content {
      assert HasContent(a, x[q].content, Also(Gone(l, a, src, dst), iset{}));
    }
  }

  // ---- In a merge ------------------------------------------------------------------------

  /** The place a file goes to already holds a file under its temporary name. */
  function MergeDisk(): Files {
    map[[] := Folder(0), ["data"] := Folder(0), ["data", "a"] := File(2, 0),
        ["game"] := Folder(0), ["game", "a.copying"] := File(1, 0)]
  }

  lemma MergeDiskIsOne()
    ensures WellFormed(MergeDisk()) && MayCopy(MergeDisk(), ["data", "a"], ["game", "a"])
    ensures Temp(["game", "a"]) == ["game", "a.copying"]
  {
    var a := MergeDisk();
    assert Parent(["data"]) == [] && Parent(["game"]) == [];
    assert Parent(["data", "a"]) == ["data"] && Parent(["game", "a.copying"]) == ["game"] && Parent(["game", "a"]) == ["game"];
    assert "a" + SUFFIX == "a.copying";
    assert ["data", "a"][0] != ["game", "a"][0];
  }

  lemma MergeDiskIsClear()
    ensures Clear(MergeDisk(), ["data", "a"], ["game", "a"])
  {
    LastOfTemporary("game");
    LastOfTemporary("data");
  }

  /** Whatever order folders are listed in: once that file is copied and deleted what
      stood under the temporary name is nowhere. */
  lemma MergeLoses(l: Listing, x: Files)
    requires Made(l, MergeDisk(), x, ["data", "a"], ["game", "a"]) && NothingIn(x, ["data", "a"])
    ensures Holds(MergeDisk(), ["game", "a.copying"], 1) && !HasContent(x, 1, iset{}) && !Survives(MergeDisk(), x, iset{})
  {
    var a, p := MergeDisk(), ["game", "a.copying"];
    MergeDiskIsOne();
    assert IsFile(a, p) && p in Gone(l, a, ["data", "a"], ["game", "a"]);
    GoneIsLost(l, a, x, ["data", "a"], ["game", "a"], p);
  }

  /** A run that gets there: the file is to be renamed to another volume, nothing fails. */
  method MergeIsRun(world: World) returns (disk: Disk)
    requires world.Fair() && world.NoFailure(0) && world.crosses(["data", "a"], ["game", "a"])
    ensures fresh(disk) && Holds(MergeDisk(), ["game", "a.copying"], 1)
    ensures !HasContent(disk.files, 1, iset{}) && !Survives(MergeDisk(), disk.files, iset{})
  {
    MergeDiskIsOne();
    MergeDiskIsClear();
    disk := new Disk(MergeDisk(), world);
    var mover := new Mover(disk);
    var ok := mover.RenameOrCopy(["data", "a"], ["game", "a"], ["game", "a"]);
    MergeLoses(world.listing, disk.files);
  }

  // ---- In a folder -----------------------------------------------------------------------

  function FolderDisk(): Files {
    map[[] := Folder(0), ["data"] := Folder(0), ["data", "a.copying"] := File(1, 0), ["data", "a"] := File(2, 0),
        ["game"] := Folder(0)]
  }

  lemma FolderDiskIsOne()
    ensures WellFormed(FolderDisk()) && MayCopy(FolderDisk(), ["data"], ["game", "data"])
  {
    var a := FolderDisk();
    assert Parent(["data"]) == [] && Parent(["game"]) == [] && Parent(["game", "data"]) == ["game"];
    assert Parent(["data", "a"]) == ["data"] && Parent(["data", "a.copying"]) == ["data"];
    assert ["data"][0] != ["game", "data"][0];
  }

  lemma FolderDiskIsClear()
    ensures Clear(FolderDisk(), ["data"], ["game", "data"])
  {
    LastOfTemporary("game");
    LastOfTemporary("data");
  }

  lemma InTheFolder(n: Name)
    ensures ["data"] + [n] in FolderDisk() <==> n in {"a.copying", "a"}
  {
    var q := ["data"] + [n];
    assert |q| == 2 && q[1] == n;
    if q in FolderDisk() {
      assert q == ["data", "a.copying"] || q == ["data", "a"];
    }
    assert n == "a" ==> q == ["data", "a"];
    assert n == "a.copying" ==> q == ["data", "a.copying"];
  }

  lemma FolderDiskNames()
    ensures ChildNames(FolderDisk(), ["data"]) == {"a.copying", "a"}
  {
    ChildrenAreThere(FolderDisk(), ["data"]);
    forall n ensures n in ChildNames(FolderDisk(), ["data"]) <==> n in {"a.copying", "a"} {
      InTheFolder(n);
    }
  }

  lemma FirstOfTwoIsGone(l: Listing, a: Files, d: Path, dst: Path, first: Name, next: Name)
    requires dst != [] && IsFolder(a, d) && l(d, ChildNames(a, d)) == [first, next] && first == next + SUFFIX
    requires IsFile(a, d + [first]) && IsFile(a, d + [next])
    ensures d + [first] in Gone(l, a, d, dst)
  {
    var names := [first, next];
    var p := d + [first];
    assert Parent(p) == d && names[0] == names[1] + SUFFIX;
    assert ClearedIn(a, d, names, 2, p);
  }

  lemma FolderDiskClears(l: Listing)
    requires l(["data"], {"a.copying", "a"}) == ["a.copying", "a"]
    ensures ["data", "a.copying"] in Gone(l, FolderDisk(), ["data"], ["game", "data"])
  {
    FolderDiskNames();
    assert ["data"] + ["a.copying"] == ["data", "a.copying"] && ["data"] + ["a"] == ["data", "a"];
    FirstOfTwoIsGone(l, FolderDisk(), ["data"], ["game", "data"], "a.copying", "a");
  }

  lemma FolderDiskHoldsOnce()
    ensures IsFile(FolderDisk(), ["data", "a.copying"]) && FolderDisk()[["data", "a.copying"]].content == 1
    ensures forall q | q in FolderDisk() && FolderDisk()[q].File? && q != ["data", "a.copying"] :: FolderDisk()[q].content != 1
  {
  }

  /** Listed before the file whose temporary name it has, a file is gone with its
      contents once their folder is copied and deleted. */
  lemma FolderLoses(l: Listing, x: Files)
    requires l(["data"], {"a.copying", "a"}) == ["a.copying", "a"]
    requires Made(l, FolderDisk(), x, ["data"], ["game", "data"]) && NothingIn(x, ["data"])
    ensures Holds(FolderDisk(), ["data", "a.copying"], 1) && !HasContent(x, 1, iset{}) && !Survives(FolderDisk(), x, iset{})
  {
    FolderDiskIsOne();
    FolderDiskHoldsOnce();
    FolderDiskClears(l);
    GoneIsLost(l, FolderDisk(), x, ["data"], ["game", "data"], ["data", "a.copying"]);
  }

  /** A run that gets there. */
  method FolderIsRun(world: World) returns (disk: Disk)
    requires world.Fair() && world.NoFailure(0) && world.crosses(["data"], ["game", "data"])
    requires world.listing(["data"], {"a.copying", "a"}) == ["a.copying", "a"]
    ensures fresh(disk) && Holds(FolderDisk(), ["data", "a.copying"], 1)
    ensures !HasContent(disk.files, 1, iset{}) && !Survives(FolderDisk(), disk.files, iset{})
  {
    FolderDiskIsOne();
    FolderDiskIsClear();
    disk := new Disk(FolderDisk(), world);
    var mover := new Mover(disk);
    var ok := mover.RenameOrCopy(["data"], ["game", "data"], ["game", "data"]);
    FolderLoses(world.listing, disk.files);
  }
}
