/** What is true of every moment of a migration, and of starting it again after it
    stopped at any of them. */
module MigrationRuns {
  import opened Wrappers
  import opened DiskModel
  import opened BesideNames
  import opened TemporaryNames
  import opened LayoutKeeps
  import opened LayoutRuns
  import opened Disks
  import opened CopyStates
  import opened LayoutMoves
  import opened LeftoverSweep
  import opened MigrationSteps
  import opened Migration

  /** A moment of the run. */
  ghost predicate InRun(u: Trace, v: Trace, x: Files) {
    x == u.files || Passed(u, v, x)
  }

  lemma EveryStateFollows(setting: Setting, jobs: seq<Job>, u: Trace, w: Trace, v: Trace, swept: bool, x: Files)
    requires Planned(setting, jobs) && Migrated(setting, jobs, u, w, v, swept) && InRun(u, v, x) && !setting.IsCurrent(u.files)
    ensures Follows(setting, jobs, u.files, x)
    ensures setting.IsCurrent(x) ==> AllDone(x, jobs)
  {
    FollowsItself(setting, jobs, u.files);
    SweptFollows(setting, jobs, u.files, w.files);
    if x == v.files {
      FollowsOn(setting, jobs, u.files, w.files, x);
    } else if x != u.files {
      var i :| |u.history| <= i < |v.history| && x == v.history[i];
      if i < |w.history| {
        assert w.history[i] == x;
        SweptFollows(setting, jobs, u.files, x);
      } else {
        FollowsOn(setting, jobs, u.files, w.files, x);
      }
    }
  }

  /** Whichever operation fails or is the last: what a file held whose name is no
      temporary one such a file still holds, unless the migration does away with it
      there, and a marker stands only where every step is done. */
  lemma NamedContentsAreSafe(setting: Setting, jobs: seq<Job>, u: Trace, w: Trace, v: Trace, swept: bool, x: Files, p: Path)
    requires Planned(setting, jobs) && Migrated(setting, jobs, u, w, v, swept) && InRun(u, v, x) && !setting.IsCurrent(u.files)
    requires p in u.files && u.files[p].File? && Real(p) && p !in AwayFor(setting, jobs, u.files[p].content)
    ensures HasNamed(setting, jobs, x, u.files[p].content) && (setting.IsCurrent(x) ==> AllDone(x, jobs))
  {
    EveryStateFollows(setting, jobs, u, w, v, swept, x);
  }

  // ---- What a migration costs ----------------------------------------------------------

  /** A file holds it that the sweep leaves and the migration does not do away with. */
  ghost predicate HeldUnswept(setting: Setting, jobs: seq<Job>, a: Files, content: int) {
    exists q :: q !in AwayFor(setting, jobs, content) && !Leftover(a, setting.tops, q) && Holds(a, q, content)
  }

  ghost predicate AlwaysHeld(setting: Setting, jobs: seq<Job>, u: Trace, v: Trace, content: int) {
    forall x {:trigger InRun(u, v, x)} | InRun(u, v, x) :: HasContent(x, content, AwayFor(setting, jobs, content))
  }

  /** Once swept only what a file left holds is still held. */
  lemma SweptHolds(setting: Setting, jobs: seq<Job>, a: Files, x: Files, content: int)
    requires Swept(a, x, setting.tops)
    ensures HeldUnswept(setting, jobs, a, content) ==> HasContent(x, content, AwayFor(setting, jobs, content))
    ensures Cleaned(x, setting.tops) && HasContent(x, content, AwayFor(setting, jobs, content)) ==>
              HeldUnswept(setting, jobs, a, content)
  {
    var away := AwayFor(setting, jobs, content);
    if HeldUnswept(setting, jobs, a, content) {
      var q :| q !in away && !Leftover(a, setting.tops, q) && Holds(a, q, content);
      assert Holds(x, q, content);
    }
    if Cleaned(x, setting.tops) && HasContent(x, content, away) {
      var q :| q !in away && Holds(x, q, content);
      SweepIsExact(a, x, setting.tops, q);
      assert Holds(a, q, content);
    }
  }

  lemma SweepIsInRun(u: Trace, w: Trace, v: Trace)
    requires Recorded(u) && Recorded(w) && u.history <= w.history && w.history <= v.history
    ensures InRun(u, v, w.files)
  {
    if |w.history| == |u.history| {
      assert w.history == u.history;
    } else {
      assert v.history[|w.history| - 1] == w.files;
    }
  }

  /** A state from the sweep on keeps what counts of the swept disk. */
  lemma LaterHolds(setting: Setting, jobs: seq<Job>, w: Files, x: Files, content: int)
    requires AllSurvives(setting, jobs, w, x) && HasContent(w, content, AwayFor(setting, jobs, content))
    ensures HasContent(x, content, AwayFor(setting, jobs, content))
  {
    var p :| p !in AwayFor(setting, jobs, content) && Holds(w, p, content);
  }

  lemma UnsweptIsAlwaysHeld(setting: Setting, jobs: seq<Job>, u: Trace, w: Trace, v: Trace, swept: bool, content: int)
    requires Migrated(setting, jobs, u, w, v, swept)
    requires CostNothing(setting, jobs, v.copies[|w.copies|..]) && HeldUnswept(setting, jobs, u.files, content)
    ensures AlwaysHeld(setting, jobs, u, v, content)
  {
    SweptHolds(setting, jobs, u.files, w.files, content);
    forall x | InRun(u, v, x) ensures HasContent(x, content, AwayFor(setting, jobs, content)) {
      if x == u.files {
        var q :| q !in AwayFor(setting, jobs, content) && !Leftover(u.files, setting.tops, q) && Holds(u.files, q, content);
      } else if x == v.files {
        LaterHolds(setting, jobs, w.files, x, content);
      } else {
        var i :| |u.history| <= i < |v.history| && x == v.history[i];
        if i < |w.history| {
          assert w.history[i] == x;
          SweptHolds(setting, jobs, u.files, x, content);
        } else {
          LaterHolds(setting, jobs, w.files, x, content);
        }
      }
    }
  }

  lemma AlwaysHeldIsUnswept(setting: Setting, jobs: seq<Job>, u: Trace, w: Trace, v: Trace, content: int)
    requires Migrated(setting, jobs, u, w, v, true) && Recorded(u) && Recorded(w) && AlwaysHeld(setting, jobs, u, v, content)
    ensures HeldUnswept(setting, jobs, u.files, content)
  {
    SweepIsInRun(u, w, v);
    assert HasContent(w.files, content, AwayFor(setting, jobs, content));
    SweptHolds(setting, jobs, u.files, w.files, content);
  }

  /** Through a migration whose sweep went through, and whose copies to other volumes
      cost nothing that counts, contents are held at every moment exactly when some file
      holds them that is no leftover in a swept folder, in no folder to be deleted, no
      record to be rewritten and none of the migration's own. */
  lemma SurvivesIffUnswept(setting: Setting, jobs: seq<Job>, u: Trace, w: Trace, v: Trace, content: int)
    requires Migrated(setting, jobs, u, w, v, true) && Recorded(u) && Recorded(w)
    requires CostNothing(setting, jobs, v.copies[|w.copies|..])
    ensures AlwaysHeld(setting, jobs, u, v, content) <==> HeldUnswept(setting, jobs, u.files, content)
  {
    if HeldUnswept(setting, jobs, u.files, content) {
      UnsweptIsAlwaysHeld(setting, jobs, u, w, v, true, content);
    }
    if AlwaysHeld(setting, jobs, u, v, content) {
      AlwaysHeldIsUnswept(setting, jobs, u, w, v, content);
    }
  }

  /** Every file under a temporary name is one the sweep takes, or is done away with. */
  ghost predicate TemporariesAreSwept(setting: Setting, jobs: seq<Job>, a: Files) {
    forall p {:trigger p in a} | p in a && a[p].File? && !Real(p) ::
      Leftover(a, setting.tops, p) || p in AwayFor(setting, jobs, a[p].content)
  }

  /** On one volume, or where no file outside the swept folders has a temporary name, that
      is the whole cost, whatever is copied: the condition is one on the first disk. */
  lemma SurvivesIffUnsweptAtFirst(setting: Setting, jobs: seq<Job>, u: Trace, w: Trace, v: Trace, content: int)
    requires Planned(setting, jobs) && !setting.IsCurrent(u.files)
    requires Migrated(setting, jobs, u, w, v, true) && Recorded(u) && Recorded(w)
    requires v.copies == u.copies || TemporariesAreSwept(setting, jobs, u.files)
    ensures AlwaysHeld(setting, jobs, u, v, content) <==> HeldUnswept(setting, jobs, u.files, content)
  {
    if v.copies == u.copies {
      assert v.copies[|w.copies|..] == [];
      SurvivesIffUnswept(setting, jobs, u, w, v, content);
    } else {
      if HeldUnswept(setting, jobs, u.files, content) {
        NamedIsAlwaysHeld(setting, jobs, u, w, v, content);
      }
      if AlwaysHeld(setting, jobs, u, v, content) {
        AlwaysHeldIsUnswept(setting, jobs, u, w, v, content);
      }
    }
  }

  lemma NamedIsAlwaysHeld(setting: Setting, jobs: seq<Job>, u: Trace, w: Trace, v: Trace, content: int)
    requires Planned(setting, jobs) && Migrated(setting, jobs, u, w, v, true) && !setting.IsCurrent(u.files)
    requires TemporariesAreSwept(setting, jobs, u.files) && HeldUnswept(setting, jobs, u.files, content)
    ensures AlwaysHeld(setting, jobs, u, v, content)
  {
    var p :| p !in AwayFor(setting, jobs, content) && !Leftover(u.files, setting.tops, p) && Holds(u.files, p, content);
    forall x | InRun(u, v, x) ensures HasContent(x, content, AwayFor(setting, jobs, content)) {
      NamedContentsAreSafe(setting, jobs, u, w, v, true, x, p);
      var q :| Holds(x, q, content) && Real(q) && q !in AwayFor(setting, jobs, content);
    }
  }

  // ---- One file of a user ---------------------------------------------------------------

  function NotesDisk(): Files {
    map[[] := Folder(0), ["plugins"] := Folder(0), ["plugins", "x"] := Folder(0), ["plugins", "x", "files"] := Folder(0),
        ["plugins", "x", "files", "notes.copying"] := File(1, 0), ["plugins", "x", "files", "notes.txt"] := File(2, 0)]
  }

  lemma NotesDiskIsOne()
    ensures WellFormed(NotesDisk()) && Leftover(NotesDisk(), TOPS, ["plugins", "x", "files", "notes.copying"])
  {
    var p: Path := ["plugins", "x", "files", "notes.copying"];
    assert Parent(p) == ["plugins", "x", "files"] && Parent(["plugins", "x", "files"]) == ["plugins", "x"];
    assert Parent(["plugins", "x"]) == ["plugins"] && Parent(["plugins"]) == [];
    assert Parent(["plugins", "x", "files", "notes.txt"]) == ["plugins", "x", "files"];
    assert p[3] == "notes" + SUFFIX;
    TempIsTemporary("notes");
    assert Under(p, TOPS[1]) && p != TOPS[1];
  }

  /** A file a user named so is gone, and what it held with it, before any step runs. */
  lemma UserFileIsSwept(x: Files)
    requires Swept(NotesDisk(), x, TOPS) && Cleaned(x, TOPS)
    ensures !HasContent(x, 1, iset{}) && !Survives(NotesDisk(), x, iset{})
  {
    var p: Path := ["plugins", "x", "files", "notes.copying"];
    NotesDiskIsOne();
    SweepIsExact(NotesDisk(), x, TOPS, p);
    assert p in NotesDisk() && NotesDisk()[p] == File(1, 0);
    forall q | q in x && x[q].File? ensures x[q].content != 1 {
      assert q in NotesDisk() && q != p;
    }
  }

  // ---- One record ---------------------------------------------------------------------------

  function RecordsDisk(): Files {
    map[[] := Folder(0), ["data"] := Folder(0), ["data", "install.json"] := File(1, 0)]
  }

  /** The layout's own setting, with records that hold 1 rewritten to hold 2. */
  function RecordsSetting(): Setting {
    Setting(MARKER, TEMPORARY, 3, (content: int) => content == 3, TOPS, RECORDS, ["data"], ["game"],
            (content: int) => if content == 1 then Some(2) else None)
  }

  lemma RecordsDiskIsOne()
    ensures WellFormed(RecordsDisk()) && !RecordsSetting().IsCurrent(RecordsDisk()) && WaysOpen(Steps([], "x", []), RecordsDisk())
  {
    var a := RecordsDisk();
    assert Parent(["data"]) == [] && Parent(["data", "install.json"]) == ["data"];
    forall q | q in a && a[q].File? ensures q == ["data", "install.json"] {
    }
    var jobs := Steps([], "x", []);
    forall i | 0 <= i < |jobs| && jobs[i].Move? ensures WayIsOpen(a, jobs[i].dst) {
      StepAt([], "x", [], i);
      assert jobs[i].dst[0] != "data";
      forall q | q in a && Under(jobs[i].dst, q) && q != jobs[i].dst ensures a[q].Folder? {
        assert q != [] ==> q[0] == jobs[i].dst[0];
      }
    }
  }

  lemma RecordsPlacesAreFree()
    ensures PlacesFree(RecordsSetting(), RecordsDisk())
  {
    var setting := RecordsSetting();
    forall p | setting.Scratch(p) ensures !IsFolder(RecordsDisk(), p) {
      WrittenShape(setting, p);
    }
  }

  /** Once the folder has its new name. */
  function MovedDisk(): Files {
    map[[] := Folder(0), ["game"] := Folder(0), ["game", "install.json"] := File(1, 0)]
  }

  /** No folder was missing on the way. */
  lemma NothingMadeOnTheWay(b: Files)
    requires OnlyFolders(RecordsDisk(), b, [])
    ensures b == RecordsDisk()
  {
    forall q | q in b ensures q in RecordsDisk() {
      assert Under([], q) ==> q == [];
    }
  }

  lemma MovedPlaces()
    ensures Moved([], ["data"], ["game"]) == [] && Moved(["data"], ["data"], ["game"]) == ["game"]
    ensures Moved(["data", "install.json"], ["data"], ["game"]) == ["game", "install.json"]
  {
    var p: Path := ["data", "install.json"];
    assert p[1..] == ["install.json"] && !Under([], ["data"]);
  }

  lemma RecordsDiskRenamed()
    ensures NothingIn(RecordsDisk(), ["game"]) && Renamed(RecordsDisk(), ["data"], ["game"]) == MovedDisk()
  {
    var a := RecordsDisk();
    forall q | q in a ensures !Under(q, ["game"]) {
      assert q != [] ==> q[0] == "data";
    }
    var c := Renamed(a, ["data"], ["game"]);
    MovedPlaces();
    RenamedAt(a, ["data"], ["game"], []);
    RenamedAt(a, ["data"], ["game"], ["data"]);
    RenamedAt(a, ["data"], ["game"], ["data", "install.json"]);
    forall q | q in c ensures q in MovedDisk() {
      var from := RenamedFrom(a, ["data"], ["game"], q);
    }
  }

  lemma RecordIsMoved(world: World, c: Files)
    requires world.OneVolume() && MovedWhole(world, RecordsDisk(), c, ["data"], ["game"])
    ensures c == MovedDisk()
  {
    assert Parent(["game"]) == [];
    var b :| OnlyFolders(RecordsDisk(), b, []) && Transferred(world, b, c, ["data"], ["game"]);
    NothingMadeOnTheWay(b);
    RecordsDiskRenamed();
  }

  /** The sweep finds nothing there. */
  lemma NothingIsSwept(x: Files)
    requires Swept(RecordsDisk(), x, TOPS)
    ensures x == RecordsDisk()
  {
    var a := RecordsDisk();
    assert |"install.json"| == 12 && "install.json"[4..] != SUFFIX;
    forall q ensures !Leftover(a, TOPS, q) {
    }
  }

  /** The layout's steps on that disk, and what they are. */
  lemma RecordsStart(world: World)
    requires world.Fair() && world.NoFailure(0) && world.OneVolume()
    ensures Planned(RecordsSetting(), Steps([], "x", [])) && MayMigrate(RecordsSetting(), Steps([], "x", []), world, RecordsDisk())
    ensures Steps([], "x", []) == [Move(["data"], ["game"], true), ProfilesJob("x")]
  {
    RecordsDiskIsOne();
    RecordsPlacesAreFree();
    StepsArePlanned([], "x", [], RecordsSetting());
    StepAt([], "x", [], 0);
    StepAt([], "x", [], 1);
  }

  /** The first step and nothing after it. */
  lemma RecordsFirstStep(world: World, w: Files, c: Files)
    requires world.OneVolume() && Swept(RecordsDisk(), w, TOPS)
    requires GameStep(world, [Move(["data"], ["game"], true), ProfilesJob("x")], w, c)
    ensures c == MovedDisk() && LaterDone(c, [Move(["data"], ["game"], true), ProfilesJob("x")])
  {
    NothingIsSwept(w);
    assert !Done(w, Move(["data"], ["game"], true)) && ["game"] !in w;
    RecordIsMoved(world, c);
  }

  /** What an ended migration of that disk leaves. */
  lemma RewrittenDisk(x: Files)
    requires AllFates(RecordsSetting(), MovedDisk(), x)
    requires Holds(x, [MARKER], 3) && [TEMPORARY] !in x
    requires forall p {:trigger SameAt(MovedDisk(), x, p)}
      | !RecordsSetting().GameFile(p) && !RecordsSetting().Own(p) :: SameAt(MovedDisk(), x, p)
    ensures Holds(x, ["game", "install.json"], 2) && !HasContent(x, 1, iset{})
  {
    var setting, c := RecordsSetting(), MovedDisk();
    assert setting.records[0] == "install.json" && setting.Record("install.json") == ["game", "install.json"];
    assert RecordFate(setting, c, x, setting.records[0]);
    forall q ensures Holds(x, q, 1) ==> false {
      RewrittenAt(x, q);
    }
  }

  /** Where no record was none holds it, and the one there was holds what it should. */
  lemma RewrittenRecordAt(x: Files, i: nat)
    requires i < |RECORDS| && RecordFate(RecordsSetting(), MovedDisk(), x, RECORDS[i])
    ensures !Holds(x, RecordsSetting().Record(RECORDS[i]), 1) && !Holds(x, RecordsSetting().RecordTemp(RECORDS[i]), 1)
  {
    var setting := RecordsSetting();
    RecordsAreDistinct();
    RecordsApart(setting, 0, i);
    assert setting.Record(RECORDS[0]) == ["game", "install.json"];
    var record, temporary := setting.Record(RECORDS[i]), setting.RecordTemp(RECORDS[i]);
    assert |record| == 2 && |temporary| == 2;
    assert temporary != ["game", "install.json"];
    assert temporary !in MovedDisk();
  }

  lemma RewrittenAt(x: Files, q: Path)
    requires AllFates(RecordsSetting(), MovedDisk(), x)
    requires Holds(x, [MARKER], 3) && [TEMPORARY] !in x
    requires forall p {:trigger SameAt(MovedDisk(), x, p)}
      | !RecordsSetting().GameFile(p) && !RecordsSetting().Own(p) :: SameAt(MovedDisk(), x, p)
    ensures !Holds(x, q, 1)
  {
    var setting := RecordsSetting();
    if setting.GameFile(q) {
      var i :| 0 <= i < |setting.records|
               && (q == setting.Record(setting.records[i]) || q == setting.RecordTemp(setting.records[i]));
      assert RecordFate(setting, MovedDisk(), x, setting.records[i]);
      RewrittenRecordAt(x, i);
    } else if !setting.Own(q) {
      assert SameAt(MovedDisk(), x, q);
      FirstRecord();
    }
  }

  lemma FirstRecord()
    ensures RecordsSetting().GameFile(["game", "install.json"])
  {
    var setting := RecordsSetting();
    assert setting.records[0] == "install.json" && setting.Record(setting.records[0]) == ["game", "install.json"];
  }

  /** A record that names its old place is moved with its folder and rewritten there, and
      the marker stands only then: what it held no file holds any more. */
  method RecordIsRewritten(world: World) returns (disk: Disk)
    requires world.Fair() && world.NoFailure(0) && world.OneVolume()
    ensures fresh(disk) && Holds(RecordsDisk(), ["data", "install.json"], 1) && RecordsSetting().IsCurrent(disk.files)
    ensures Holds(disk.files, ["game", "install.json"], 2) && !HasContent(disk.files, 1, iset{})
  {
    RecordsDiskIsOne();
    RecordsStart(world);
    var setting, jobs := RecordsSetting(), Steps([], "x", []);
    disk := new Disk(RecordsDisk(), world);
    var migrator := new Migrator(disk, setting);
    ghost var swept, w, c;
    var ok: bool;
    ok, swept, w, c := migrator.Migrate(jobs);
    RecordsFirstStep(world, w.files, c);
    RewrittenDisk(disk.files);
  }

  // ---- Starting again ------------------------------------------------------------------------

  /** A migration stopped at any moment and started again with nothing failing ends
      with every step done and the marker in place, and nothing lost that a file held
      whose name is no temporary one, unless the migration does away with it there. */
  method StartAgain(setting: Setting, jobs: seq<Job>, ghost u: Trace, ghost w: Trace, ghost v: Trace, ghost swept: bool,
                    x: Files, world: World) returns (disk: Disk)
    requires Planned(setting, jobs) && setting.current(setting.text) && !setting.IsCurrent(u.files)
    requires Migrated(setting, jobs, u, w, v, swept) && Recorded(u) && Recorded(v) && InRun(u, v, x)
    requires world.Fair() && world.NoFailure(0) && MayMigrate(setting, jobs, world, u.files)
    ensures fresh(disk) && disk.Valid() && setting.IsCurrent(disk.files) && AllDone(disk.files, jobs)
    ensures NamedSurvives(setting, jobs, u.files, disk.files)
    ensures setting.RewritesOnce() && !setting.IsCurrent(x) ==> NoneNamesOldPlace(setting, disk.files)
  {
    EveryStateFollows(setting, jobs, u, w, v, swept, x);
    MayGoOn(setting, jobs, world, u.files, x);
    disk := new Disk(x, world);
    ghost var before := disk.Now();
    var migrator := new Migrator(disk, setting);
    ghost var second, r, c;
    var ok: bool;
    ok, second, r, c := migrator.Migrate(jobs);
    if !setting.IsCurrent(x) {
      EveryStateFollows(setting, jobs, before, r, disk.Now(), second, disk.files);
      FollowsOn(setting, jobs, u.files, x, disk.files);
    }
  }
}
