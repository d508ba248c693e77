/** The steps of a migration: what goes where, what is deleted, and why no step undoes
    an earlier one, touches the marker or gets in the way of another. */
module MigrationSteps {
  import opened Wrappers
  import opened DiskModel
  import opened BesideNames
  import opened TemporaryNames
  import opened LayoutKeeps
  import opened LayoutMoves
  import opened LeftoverSweep

  /** One step: what stands at `src`, if it is of that kind, goes to `dst`; or the
      folder at `src` is deleted. */
  datatype Job = Move(src: Path, dst: Path, folder: bool) | Delete(src: Path)

  predicate Done(files: Files, job: Job) {
    match job
    case Move(src, _, folder) => !(src in files && files[src].Folder? == folder)
    case Delete(src) => !IsFolder(files, src)
  }

  predicate DoneUpTo(files: Files, jobs: seq<Job>, n: nat)
    requires n <= |jobs|
  {
    forall i | 0 <= i < n :: Done(files, jobs[i])
  }

  predicate AllDone(files: Files, jobs: seq<Job>) {
    DoneUpTo(files, jobs, |jobs|)
  }

  const RECORD_MARK := ".layout.tmp"

  /** Where the marker stands, where it is written first, the text it is given, which
      texts say the layout is current; the folders swept; the content records, the
      folder they are in and the one they come from, and what a record that names its
      old place is rewritten to. */
  datatype Setting = Setting(marker: Name, temporary: Name, text: int, current: int -> bool, tops: seq<Path>,
                             records: seq<Name>, origin: Path, game: Path, rewrite: int -> Option<int>) {
    predicate IsCurrent(files: Files) {
      [marker] in files && files[[marker]].File? && current(files[[marker]].content)
    }

    predicate Own(p: Path) {
      p == [marker] || p == [temporary]
    }

    function Record(r: Name): Path {
      game + [r]
    }

    function RecordTemp(r: Name): Path {
      game + [r + RECORD_MARK]
    }

    /** A record, in its folder or still in the one it comes from. */
    predicate IsRecord(p: Path) {
      exists i :: 0 <= i < |records| && (p == game + [records[i]] || p == origin + [records[i]])
    }

    /** What is written before it takes a record's name, in either folder. */
    predicate IsRecordTemp(p: Path) {
      exists i :: 0 <= i < |records| && (p == game + [records[i] + RECORD_MARK] || p == origin + [records[i] + RECORD_MARK])
    }

    /** What the migration may overwrite whatever it holds. */
    predicate Scratch(p: Path) {
      Own(p) || IsRecordTemp(p)
    }

    predicate Written(p: Path) {
      Scratch(p) || IsRecord(p)
    }

    predicate Changes(content: int) {
      rewrite(content).Some?
    }

    function Rewritten(content: int): int {
      if Changes(content) then rewrite(content).value else content
    }

    /** A record in its folder, or what is written before it takes its name. */
    predicate GameFile(p: Path) {
      exists i :: 0 <= i < |records| && (p == Record(records[i]) || p == RecordTemp(records[i]))
    }

    /** A record rewritten names its old place no more. */
    ghost predicate RewritesOnce() {
      forall content {:trigger rewrite(content)} :: Changes(content) ==> !Changes(rewrite(content).value)
    }
  }

  /** Inside a folder to be deleted. */
  predicate Expired(jobs: seq<Job>, p: Path) {
    exists i :: 0 <= i < |jobs| && jobs[i].Delete? && Under(p, jobs[i].src)
  }

  /** What the migration itself does away with: what it overwrites, what is in a folder
      it deletes, and records, as far as their contents are ones it changes. */
  predicate DoneAway(setting: Setting, jobs: seq<Job>, changes: bool, p: Path) {
    setting.Scratch(p) || Expired(jobs, p) || (changes && setting.IsRecord(p))
  }

  ghost function Away(setting: Setting, jobs: seq<Job>, changes: bool): iset<Path> {
    iset p | DoneAway(setting, jobs, changes, p)
  }

  /** A step leaves `p` alone. */
  ghost predicate LeavesAlone(job: Job, p: Path) {
    job.Move? ==> !InRegion(p, job.src, job.dst) && !Under(job.dst, p)
  }

  /** A step does not touch the way to `dst`. */
  ghost predicate LeavesWay(job: Job, dst: Path) {
    job.Move? ==> forall q {:trigger Under(dst, q)} | Under(dst, q) && q != dst :: !InRegion(q, job.src, job.dst)
  }

  ghost predicate LeavesTop(job: Job, top: Path) {
    job.Move? ==> !InRegion(top, job.src, job.dst) || (top == job.dst && job.folder)
  }

  /** A step does not touch the records in their folder. */
  ghost predicate LeavesGameFiles(setting: Setting, job: Job) {
    forall p {:trigger setting.GameFile(p)} | setting.GameFile(p) ::
      LeavesAlone(job, p) && (job.Delete? ==> !Under(p, job.src))
  }

  /** A step brings nothing to where the migration does away with things. */
  ghost predicate BringsNothing(setting: Setting, jobs: seq<Job>, job: Job) {
    job.Move? ==>
      Closed(Away(setting, jobs, true), job.src, job.dst) && Closed(Away(setting, jobs, false), job.src, job.dst)
  }

  /** A record's temporary name is none a folder comes to have. */
  ghost predicate LeavesScratch(setting: Setting, job: Job) {
    job.Move? ==> forall p {:trigger setting.Scratch(p)} | setting.Scratch(p) ::
      !Under(job.dst, p) && (Under(p, job.dst) ==> setting.Scratch(job.src + p[|job.dst|..]))
  }

  /** What every step is: nothing into itself, nothing of the migration's own. */
  ghost predicate FitStep(setting: Setting, jobs: seq<Job>, job: Job) {
    && job.src != [] && !setting.Written(job.src)
    && (job.Move? ==> job.dst != [] && Apart(job.src, job.dst) && Real(job.dst))
    && LeavesAlone(job, [setting.marker]) && LeavesAlone(job, [setting.temporary])
    && (forall k {:trigger setting.tops[k]} | 0 <= k < |setting.tops| :: LeavesTop(job, setting.tops[k]))
    && (forall p {:trigger setting.Written(p)} | setting.Written(p) :: job.Move? ==> !Under(job.dst, p))
    && LeavesScratch(setting, job) && BringsNothing(setting, jobs, job)
  }

  /** No record has another's name, or its temporary one. */
  predicate DistinctRecords(records: seq<Name>) {
    && (forall i, j | 0 <= i < j < |records| :: records[i] != records[j])
    && (forall i, j | 0 <= i < |records| && 0 <= j < |records| :: records[i] != records[j] + RECORD_MARK)
  }

  /** The migration's own files are apart from the rest, and each has a real name. */
  ghost predicate FitSetting(setting: Setting) {
    && setting.marker != setting.temporary && setting.game != []
    && (forall p {:trigger setting.Own(p)} | setting.Own(p) :: !Inside(setting.tops, p))
    && (forall p {:trigger setting.Written(p)} | setting.Written(p) :: p !in setting.tops)
    && (forall i {:trigger setting.records[i]} | 0 <= i < |setting.records| ::
          !setting.Own(setting.Record(setting.records[i])) && !setting.Own(setting.RecordTemp(setting.records[i])))
    && DistinctRecords(setting.records)
  }

  /** What the list of steps is made of. */
  ghost predicate Planned(setting: Setting, jobs: seq<Job>) {
    && FitSetting(setting)
    && (forall i {:trigger jobs[i]} | 0 <= i < |jobs| :: FitStep(setting, jobs, jobs[i]))
    && (forall i, j {:trigger jobs[i], jobs[j]} | 0 <= i < j < |jobs| :: LeavesAlone(jobs[j], jobs[i].src))
    && (forall i, j {:trigger jobs[i], jobs[j]} | 0 <= i < |jobs| && 0 <= j < |jobs| && jobs[i].Move? :: LeavesWay(jobs[j], jobs[i].dst))
    && (forall i {:trigger jobs[i]} | 1 <= i < |jobs| :: LeavesGameFiles(setting, jobs[i]))
  }

  // ---- The steps of this layout ---------------------------------------------------

  const MARKER := "layout.json"
  const TEMPORARY := "layout.json.tmp"
  const TOPS: seq<Path> := [["game"], ["plugins"], ["logs"]]
  const RECORDS: seq<Name> := ["install.json", "install.verification.json", "retail-content.json"]

  predicate IsLayout(setting: Setting) {
    && setting.marker == MARKER && setting.temporary == TEMPORARY && setting.tops == TOPS
    && setting.records == RECORDS && setting.origin == ["data"] && setting.game == ["game"]
  }

  predicate Hidden(name: Name) {
    name != "" && name[0] == '.'
  }

  /** A plugin's folder, or a copy of one that an interrupted install or removal left in
      a hidden folder. */
  predicate IsOwner(o: Path) {
    o != [] && o[0] == "plugins" && ((|o| == 2 && !Hidden(o[1])) || (|o| == 3 && Hidden(o[1])))
  }

  datatype Session = Session(id: Name, expired: bool)

  function GameJob(): Job {
    Move(["data"], ["game"], true)
  }

  function OwnerJob(o: Path): Job {
    Move(o + ["files"], o + ["data"], true)
  }

  function ProfilesJob(id: Name): Job {
    Move(["vtank"], ["plugins", id, "vtank"], true)
  }

  /** An old session folder is deleted past its time, and else set aside when nothing can
      be read of it. */
  function SessionJob(s: Session): Job {
    if s.expired then Delete(["logs", "launcher", s.id])
    else Move(["logs", "launcher", s.id], ["logs", "unsorted", s.id], true)
  }

  /** The game folder, every plugin's own files, the shared profiles, old session folders. */
  function Steps(owners: seq<Path>, profiles: Name, sessions: seq<Session>): seq<Job> {
    [GameJob()] + seq(|owners|, i requires 0 <= i < |owners| => OwnerJob(owners[i])) + [ProfilesJob(profiles)]
    + seq(|sessions|, i requires 0 <= i < |sessions| => SessionJob(sessions[i]))
  }

  predicate DistinctSteps(owners: seq<Path>, sessions: seq<Session>) {
    && (forall i | 0 <= i < |owners| :: IsOwner(owners[i]))
    && (forall i, j | 0 <= i < j < |owners| :: owners[i] != owners[j])
    && (forall i | 0 <= i < |sessions| :: sessions[i].id != "" && !IsTemporary(sessions[i].id))
    && (forall i, j | 0 <= i < j < |sessions| :: sessions[i].id != sessions[j].id)
  }

  lemma TempStartsAlike(q: Path, p: Path)
    requires TempNear(q, p) && p != [] && p[|p| - 1] != ""
    ensures q != [] && |q| == |p| && Parent(q) == Parent(p) && StartsAlike(q[|q| - 1], p[|p| - 1])
  {
    var x :| Near(x, p) && x != [] && q == Temp(x);
    NearIsSibling(x, p);
    NearStartsAlike(x, p);
    assert q[|q| - 1] == x[|x| - 1] + SUFFIX;
  }

  /** What is elsewhere, or begins otherwise, is not beside. */
  lemma NotBeside(q: Path, p: Path)
    requires p != [] && p[|p| - 1] != ""
    requires |q| != |p| || Parent(q) != Parent(p) || !StartsAlike(q[|q| - 1], p[|p| - 1])
    ensures !Near(q, p) && !TempNear(q, p)
  {
    if Near(q, p) {
      NearIsSibling(q, p);
      NearStartsAlike(q, p);
    }
    if TempNear(q, p) {
      TempStartsAlike(q, p);
    }
  }

  // ---- Names that nothing steps aside to ------------------------------------------------

  predicate MarkedAt(name: Name, i: nat) {
    i + 1 < |name| && name[i] == '.' && name[i + 1] == 'o'
  }

  ghost predicate Marked(name: Name) {
    exists i: nat :: MarkedAt(name, i)
  }

  lemma BesideIsMarked(name: Name, n: nat)
    requires n >= 1
    ensures Marked(Beside(name, n))
  {
    var stem, mark := Stem(name), Mark(n);
    assert mark[0] == '.' && mark[1] == 'o';
    assert Beside(name, n) == stem + mark + Extension(name);
    assert MarkedAt(Beside(name, n), |stem|);
  }

  /** What stepped aside bears the mark. */
  lemma AsideIsMarked(q: Path, p: Path)
    requires Near(q, p) && q != p
    ensures q != [] && Marked(q[|q| - 1])
  {
    var ns :| q == Besides(p, ns);
    BesidesStep(p, ns);
    var b := Besides(p, ns[..|ns| - 1]);
    BesideIsMarked(b[|b| - 1], ns[|ns| - 1] + 1);
    assert q[|q| - 1] == Beside(b[|b| - 1], ns[|ns| - 1] + 1);
  }

  lemma RecordNamesUnmarked()
    ensures forall r | r in RECORDS :: !Marked(r)
  {
    assert RECORDS == ["install.json", "install.verification.json", "retail-content.json"];
    assert forall i: nat :: !MarkedAt("install.json", i);
    assert forall i: nat :: !MarkedAt("install.verification.json", i);
    assert forall i: nat :: !MarkedAt("retail-content.json", i);
  }

  lemma MarkStaysUnmarked(name: Name)
    requires !Marked(name)
    ensures !Marked(name + RECORD_MARK)
  {
    var all := name + RECORD_MARK;
    forall i: nat ensures !MarkedAt(all, i) {
      if i + 1 < |all| {
        if i + 1 < |name| {
          assert !MarkedAt(name, i) && all[i] == name[i] && all[i + 1] == name[i + 1];
        } else if i < |name| {
          assert all[i + 1] == RECORD_MARK[0] == '.';
        } else {
          assert all[i] == RECORD_MARK[i - |name|] && all[i + 1] == RECORD_MARK[i - |name| + 1];
        }
      }
    }
  }

  lemma RecordsAreUnmarked()
    ensures forall r | r in RECORDS :: !Marked(r) && !Marked(r + RECORD_MARK)
  {
    RecordNamesUnmarked();
    forall r | r in RECORDS ensures !Marked(r + RECORD_MARK) {
      MarkStaysUnmarked(r);
    }
  }

  // ---- Where things are done away with -----------------------------------------------------

  /** Only old session folders are deleted. */
  predicate DeletesSessions(jobs: seq<Job>) {
    forall i | 0 <= i < |jobs| && jobs[i].Delete? :: |jobs[i].src| == 3 && jobs[i].src[0] == "logs" && jobs[i].src[1] == "launcher"
  }

  predicate DeletesId(jobs: seq<Job>, id: Name) {
    exists i :: 0 <= i < |jobs| && jobs[i].Delete? && jobs[i].src == ["logs", "launcher", id]
  }

  lemma WrittenShape(setting: Setting, p: Path)
    requires IsLayout(setting) && setting.Written(p)
    ensures (|p| == 1 && (p[0] == MARKER || p[0] == TEMPORARY)) || (|p| == 2 && (p[0] == "game" || p[0] == "data"))
    ensures p != ["game"] && p != ["data"]
  {
  }

  lemma ExpiredShape(jobs: seq<Job>, p: Path)
    requires DeletesSessions(jobs) && Expired(jobs, p)
    ensures |p| >= 3 && p[0] == "logs" && p[1] == "launcher" && DeletesId(jobs, p[2])
  {
    var i :| 0 <= i < |jobs| && jobs[i].Delete? && Under(p, jobs[i].src);
    var src := jobs[i].src;
    PrefixIs(p, src);
    assert p[0] == src[0] && p[1] == src[1] && p[2] == src[2];
    assert src == ["logs", "launcher", p[2]];
  }

  lemma RecordNamesAreUnmarked(setting: Setting, p: Path)
    requires IsLayout(setting) && setting.Written(p)
    ensures p != [] && !Marked(p[|p| - 1])
  {
    RecordsAreUnmarked();
    assert forall i: nat :: !MarkedAt("layout.json", i);
    assert forall i: nat :: !MarkedAt("layout.json.tmp", i);
    if !setting.Own(p) {
      var i :| 0 <= i < |RECORDS| && (p == ["game"] + [RECORDS[i]] || p == ["data"] + [RECORDS[i]]
                                      || p == ["game"] + [RECORDS[i] + RECORD_MARK] || p == ["data"] + [RECORDS[i] + RECORD_MARK]);
      assert RECORDS[i] in RECORDS;
    }
  }

  /** What goes from one folder to the other under its own name is a record in the one
      if it is in the other. */
  lemma SameInBoth(setting: Setting, p: Path)
    requires IsLayout(setting) && Under(p, ["data"])
    ensures setting.IsRecordTemp(["game"] + p[1..]) ==> setting.IsRecordTemp(p)
    ensures setting.IsRecord(["game"] + p[1..]) ==> setting.IsRecord(p)
    ensures !setting.Own(["game"] + p[1..])
  {
    PrefixIs(p, ["data"]);
    var q := ["game"] + p[1..];
    assert q[0] == "game" && p == ["data"] + p[1..] && q[1..] == p[1..];
    if setting.IsRecordTemp(q) {
      var i :| 0 <= i < |RECORDS| && (q == ["game"] + [RECORDS[i] + RECORD_MARK] || q == ["data"] + [RECORDS[i] + RECORD_MARK]);
      assert q[1..] == [RECORDS[i] + RECORD_MARK];
      assert p == ["data"] + [RECORDS[i] + RECORD_MARK];
    }
    if setting.IsRecord(q) {
      var i :| 0 <= i < |RECORDS| && (q == ["game"] + [RECORDS[i]] || q == ["data"] + [RECORDS[i]]);
      assert q[1..] == [RECORDS[i]];
      assert p == ["data"] + [RECORDS[i]];
    }
  }

  lemma GameBringsNothing(setting: Setting, jobs: seq<Job>, changes: bool)
    requires IsLayout(setting) && DeletesSessions(jobs)
    ensures Closed(Away(setting, jobs, changes), ["data"], ["game"])
  {
    forall p, q | p !in Away(setting, jobs, changes) && MayStand(q, p, ["data"], ["game"])
      ensures q !in Away(setting, jobs, changes)
    {
      if DoneAway(setting, jobs, changes, q) {
        OnlyFromThere(setting, jobs, changes, p, q);
      }
    }
  }

  lemma OnlyFromThere(setting: Setting, jobs: seq<Job>, changes: bool, p: Path, q: Path)
    requires IsLayout(setting) && DeletesSessions(jobs) && MayStand(q, p, ["data"], ["game"])
    requires DoneAway(setting, jobs, changes, q)
    ensures DoneAway(setting, jobs, changes, p)
  {
    if q != p {
      var target := if Under(p, ["data"]) then ["game"] + p[1..] else p;
      assert p[|["data"]|..] == p[1..] || !Under(p, ["data"]);
      NotInLogs(jobs, p, q, target);
      if q == target {
        SameInBoth(setting, p);
      } else {
        AsideIsMarked(q, target);
        if setting.Written(q) {
          RecordNamesAreUnmarked(setting, q);
        }
      }
    }
  }

  lemma NotInLogs(jobs: seq<Job>, p: Path, q: Path, target: Path)
    requires DeletesSessions(jobs) && Near(q, target)
    requires Under(target, ["game"]) || Near(target, ["game"])
    ensures !Expired(jobs, q)
  {
    NearIsSibling(q, target);
    if Near(target, ["game"]) {
      NearIsSibling(target, ["game"]);
    } else {
      PrefixIs(target, ["game"]);
    }
    assert |q| >= 2 ==> q[0] == Parent(q)[0] && target[0] == Parent(target)[0];
    if Expired(jobs, q) {
      ExpiredShape(jobs, q);
    }
  }

  // ---- What the steps leave alone -------------------------------------------------------------

  lemma NotInRegion(p: Path, s: Path, t: Path)
    requires !Under(p, s) && !Under(p, t) && t != [] && t[|t| - 1] != ""
    requires |p| != |t| || Parent(p) != Parent(t) || !StartsAlike(p[|p| - 1], t[|t| - 1])
    ensures !InRegion(p, s, t)
  {
    NotBeside(p, t);
  }

  lemma OtherRoot(p: Path, top: Path)
    requires top != [] && (p == [] || p[0] != top[0])
    ensures !Under(p, top) && (|p| > 1 && |top| > 1 ==> Parent(p) != Parent(top)) && (p != [] ==> !Under(top, p))
  {
    if |p| > 1 && |top| > 1 {
      assert Parent(p)[0] == p[0] && Parent(top)[0] == top[0];
    }
  }

  lemma OwnerLeaves(o: Path, p: Path)
    requires IsOwner(o) && (p == [] || p[0] != "plugins")
    ensures !InRegion(p, OwnerJob(o).src, OwnerJob(o).dst) && (p != [] ==> !Under(OwnerJob(o).dst, p))
  {
    var job := OwnerJob(o);
    assert job.src[0] == "plugins" && job.dst[0] == "plugins" && job.dst[|job.dst| - 1] == "data";
    OtherRoot(p, job.src);
    OtherRoot(p, job.dst);
    NotInRegion(p, job.src, job.dst);
  }

  lemma ProfilesLeave(id: Name, p: Path)
    requires p == [] || (p[0] != "plugins" && p[0] != "vtank")
    ensures !InRegion(p, ProfilesJob(id).src, ProfilesJob(id).dst) && (p != [] ==> !Under(ProfilesJob(id).dst, p))
  {
    var job := ProfilesJob(id);
    OtherRoot(p, job.src);
    OtherRoot(p, job.dst);
    NotInRegion(p, job.src, job.dst);
  }

  lemma SessionLeaves(s: Session, p: Path)
    requires s.id != "" && !s.expired && (p == [] || p[0] != "logs")
    ensures !InRegion(p, SessionJob(s).src, SessionJob(s).dst) && (p != [] ==> !Under(SessionJob(s).dst, p))
  {
    var job := SessionJob(s);
    OtherRoot(p, job.src);
    OtherRoot(p, job.dst);
    NotInRegion(p, job.src, job.dst);
  }

  /** Another old session folder, and all in it. */
  lemma SessionLeavesOther(s: Session, p: Path)
    requires s.id != "" && !s.expired && |p| >= 3 && p[0] == "logs" && p[1] == "launcher" && p[2] != s.id
    ensures !InRegion(p, SessionJob(s).src, SessionJob(s).dst) && !Under(SessionJob(s).dst, p)
  {
    var job := SessionJob(s);
    assert job.src[2] == s.id && job.dst[1] == "unsorted";
    assert Parent(p)[1] == "launcher" && Parent(job.dst)[1] == "unsorted";
    NotInRegion(p, job.src, job.dst);
  }

  lemma SessionLeavesWay(s: Session, p: Path)
    requires s.id != "" && !s.expired && |p| <= 2
    ensures !InRegion(p, SessionJob(s).src, SessionJob(s).dst)
  {
    NotInRegion(p, SessionJob(s).src, SessionJob(s).dst);
  }

  /** Another plugin's folder, what is on the way to it, and its old files. */
  lemma OwnersApart(o: Path, other: Path, p: Path)
    requires IsOwner(o) && IsOwner(other) && o != other && p != []
    requires Under(other, p) || p == other + ["files"]
    ensures !InRegion(p, OwnerJob(o).src, OwnerJob(o).dst)
    ensures p == other + ["files"] ==> !Under(OwnerJob(o).dst, p)
  {
    var job := OwnerJob(o);
    if p == other + ["files"] {
      OwnerFilesApart(o, other);
    } else {
      PrefixIs(other, p);
      assert job.src[..2] == o[..2] && job.dst[..2] == o[..2];
      if |p| >= 3 {
        assert p == other && p[1] == other[1];
        assert |o| == 2 ==> o[1] != p[1];
        if |o| == 2 {
          assert Parent(p)[1] == other[1] && Parent(job.dst)[1] == o[1];
          assert job.src[1] == o[1] && job.dst[1] == o[1];
        }
      }
      assert job.dst[|job.dst| - 1] == "data";
      NotInRegion(p, job.src, job.dst);
    }
  }

  lemma OwnerFilesApart(o: Path, other: Path)
    requires IsOwner(o) && IsOwner(other) && o != other
    ensures !InRegion(other + ["files"], OwnerJob(o).src, OwnerJob(o).dst) && !Under(OwnerJob(o).dst, other + ["files"])
  {
    var p, job := other + ["files"], OwnerJob(o);
    assert Parent(p) == other && Parent(job.dst) == o && Parent(job.src) == o;
    assert job.dst[|job.dst| - 1] == "data" && p[|p| - 1] == "files";
    if |o| == |other| {
      assert p[..|o|] == other && job.src[..|o|] == o && job.dst[..|o|] == o;
    } else {
      assert o[1] != other[1];
      assert p[1] == other[1] && job.src[1] == o[1] && job.dst[1] == o[1];
    }
    NotInRegion(p, job.src, job.dst);
  }

  lemma OwnerLeavesProfiles(o: Path, id: Name, p: Path)
    requires IsOwner(o) && !Hidden(id) && p != [] && Under(["plugins", id], p)
    ensures !InRegion(p, OwnerJob(o).src, OwnerJob(o).dst)
  {
    PrefixIs(["plugins", id], p);
    assert OwnerJob(o).dst[|OwnerJob(o).dst| - 1] == "data";
    NotInRegion(p, OwnerJob(o).src, OwnerJob(o).dst);
  }

  /** A plugin's folder, what is on the way to it, and its old files. */
  lemma ProfilesLeaveOwners(id: Name, o: Path, p: Path)
    requires IsOwner(o) && !Hidden(id) && p != [] && (Under(o, p) || p == o + ["files"])
    ensures !InRegion(p, ProfilesJob(id).src, ProfilesJob(id).dst)
    ensures p == o + ["files"] ==> !Under(ProfilesJob(id).dst, p)
  {
    var job := ProfilesJob(id);
    PrefixIs(o, p);
    assert p[0] == "plugins" && job.dst[1] == id && Parent(job.dst)[1] == id;
    if |p| >= 3 {
      assert p[1] == o[1];
      if |o| == 3 {
        assert p[1] != id;
        assert Parent(p)[1] == p[1];
      } else {
        assert p == o + ["files"] && p[2] == "files";
      }
    }
    NotInRegion(p, job.src, job.dst);
  }

  lemma GameLeaves(p: Path)
    requires p == [] || (p[0] != "data" && p[0] != "game" && (|p| == 1 ==> p[0] != "" && p[0][0] != 'g'))
    ensures !InRegion(p, ["data"], ["game"]) && (p != [] ==> !Under(["game"], p))
  {
    OtherRoot(p, ["data"]);
    OtherRoot(p, ["game"]);
    NotInRegion(p, ["data"], ["game"]);
  }

  // ---- These steps are such a list -------------------------------------------------------------

  /** A step that moves something elsewhere than the migration does away with things. */
  lemma OutsideFits(setting: Setting, jobs: seq<Job>, job: Job)
    requires job.Move? && forall p | DoneAway(setting, jobs, true, p) :: !InRegion(p, job.src, job.dst)
    ensures BringsNothing(setting, jobs, job)
  {
    OutsideIsClosed(Away(setting, jobs, true), job.src, job.dst);
    OutsideIsClosed(Away(setting, jobs, false), job.src, job.dst);
  }

  lemma AwayRoots(setting: Setting, jobs: seq<Job>, p: Path)
    requires IsLayout(setting) && DeletesSessions(jobs) && DoneAway(setting, jobs, true, p)
    ensures p != [] && p[0] != "plugins" && p[0] != "vtank"
    ensures setting.Written(p) ==> p[0] != "logs"
    ensures p[0] == "logs" ==> |p| >= 3 && p[1] == "launcher" && DeletesId(jobs, p[2])
  {
    if setting.Written(p) {
      WrittenShape(setting, p);
    } else {
      ExpiredShape(jobs, p);
    }
  }

  lemma GameFits(setting: Setting, jobs: seq<Job>)
    requires IsLayout(setting) && DeletesSessions(jobs)
    ensures FitStep(setting, jobs, GameJob())
  {
    var job := GameJob();
    assert ["data"][0] != ["game"][0];
    assert |"game"| < |SUFFIX|;
    GameBringsNothing(setting, jobs, true);
    GameBringsNothing(setting, jobs, false);
    GameLeaves([MARKER]);
    GameLeaves([TEMPORARY]);
    forall k | 0 <= k < |TOPS| ensures LeavesTop(job, TOPS[k]) {
      GameLeaves(["plugins"]);
      GameLeaves(["logs"]);
    }
    forall p | setting.Written(p) ensures !Under(["game"], p) {
      WrittenShape(setting, p);
    }
    GameLeavesScratch(setting);
    if setting.Written(["data"]) {
      WrittenShape(setting, ["data"]);
    }
  }

  lemma GameLeavesScratch(setting: Setting)
    requires IsLayout(setting)
    ensures LeavesScratch(setting, GameJob())
  {
    forall p | setting.Scratch(p) ensures !Under(["game"], p) && (Under(p, ["game"]) ==> setting.Scratch(["data"] + p[1..])) {
      WrittenShape(setting, p);
      if Under(p, ["game"]) {
        var i :| 0 <= i < |RECORDS| && (p == ["game"] + [RECORDS[i] + RECORD_MARK] || p == ["data"] + [RECORDS[i] + RECORD_MARK]);
        assert p[0] == "game" && p[1..] == [RECORDS[i] + RECORD_MARK];
        assert setting.IsRecordTemp(["data"] + [RECORDS[i] + RECORD_MARK]);
      }
    }
  }

  lemma OtherFits(setting: Setting, jobs: seq<Job>, job: Job)
    requires IsLayout(setting) && job.Move? && job.src != [] && job.dst != []
    requires job.src[0] in {"plugins", "vtank", "logs"} && job.dst[0] in {"plugins", "logs"}
    requires Apart(job.src, job.dst) && Real(job.dst)
    requires forall p | DoneAway(setting, jobs, true, p) :: !InRegion(p, job.src, job.dst)
    requires forall k | 0 <= k < |TOPS| :: !InRegion(TOPS[k], job.src, job.dst)
    ensures FitStep(setting, jobs, job)
  {
    OutsideFits(setting, jobs, job);
    assert DoneAway(setting, jobs, true, [MARKER]) && DoneAway(setting, jobs, true, [TEMPORARY]);
    forall p | setting.Written(p) ensures !Under(job.dst, p) && !Under(p, job.dst) {
      WrittenShape(setting, p);
      OtherRoot(p, job.dst);
    }
    if setting.Written(job.src) {
      WrittenShape(setting, job.src);
    }
  }

  lemma OwnerFits(setting: Setting, jobs: seq<Job>, o: Path)
    requires IsLayout(setting) && DeletesSessions(jobs) && IsOwner(o)
    ensures FitStep(setting, jobs, OwnerJob(o))
  {
    var job := OwnerJob(o);
    assert job.src[|job.src| - 1] == "files" && job.dst[|job.dst| - 1] == "data" && |"data"| < |SUFFIX|;
    assert job.src[0] == "plugins" && job.dst[0] == "plugins";
    forall p | DoneAway(setting, jobs, true, p) ensures !InRegion(p, job.src, job.dst) {
      AwayRoots(setting, jobs, p);
      OwnerLeaves(o, p);
    }
    forall k | 0 <= k < |TOPS| ensures !InRegion(TOPS[k], job.src, job.dst) {
      NotInRegion(TOPS[k], job.src, job.dst);
    }
    OtherFits(setting, jobs, job);
  }

  lemma ProfilesFit(setting: Setting, jobs: seq<Job>, id: Name)
    requires IsLayout(setting) && DeletesSessions(jobs)
    ensures FitStep(setting, jobs, ProfilesJob(id))
  {
    var job := ProfilesJob(id);
    assert job.src[0] != job.dst[0] && job.dst[2] == "vtank" && |"vtank"| < |SUFFIX|;
    forall p | DoneAway(setting, jobs, true, p) ensures !InRegion(p, job.src, job.dst) {
      AwayRoots(setting, jobs, p);
      ProfilesLeave(id, p);
    }
    forall k | 0 <= k < |TOPS| ensures !InRegion(TOPS[k], job.src, job.dst) {
      NotInRegion(TOPS[k], job.src, job.dst);
    }
    OtherFits(setting, jobs, job);
  }

  lemma SessionFits(setting: Setting, jobs: seq<Job>, s: Session)
    requires IsLayout(setting) && DeletesSessions(jobs) && s.id != "" && !IsTemporary(s.id)
    requires !s.expired ==> !DeletesId(jobs, s.id)
    ensures FitStep(setting, jobs, SessionJob(s))
  {
    var job := SessionJob(s);
    assert job.src[0] == "logs";
    if setting.Written(job.src) {
      WrittenShape(setting, job.src);
    }
    if !s.expired {
      assert job.src[1] != job.dst[1] && job.dst[2] == s.id;
      forall p | DoneAway(setting, jobs, true, p) ensures !InRegion(p, job.src, job.dst) {
        AwayRoots(setting, jobs, p);
        if p[0] == "logs" {
          assert p[2] != s.id;
          SessionLeavesOther(s, p);
        } else {
          SessionLeaves(s, p);
        }
      }
      forall k | 0 <= k < |TOPS| ensures !InRegion(TOPS[k], job.src, job.dst) {
        SessionLeavesWay(s, TOPS[k]);
      }
      OtherFits(setting, jobs, job);
    }
  }

  lemma StepAt(owners: seq<Path>, profiles: Name, sessions: seq<Session>, i: nat)
    requires i < |Steps(owners, profiles, sessions)|
    ensures |Steps(owners, profiles, sessions)| == |owners| + 2 + |sessions|
    ensures Steps(owners, profiles, sessions)[i] ==
      if i == 0 then GameJob()
      else if i <= |owners| then OwnerJob(owners[i - 1])
      else if i == |owners| + 1 then ProfilesJob(profiles)
      else SessionJob(sessions[i - |owners| - 2])
  {
  }

  lemma StepsDelete(owners: seq<Path>, profiles: Name, sessions: seq<Session>)
    ensures DeletesSessions(Steps(owners, profiles, sessions))
  {
    var jobs := Steps(owners, profiles, sessions);
    forall i | 0 <= i < |jobs| && jobs[i].Delete?
      ensures |jobs[i].src| == 3 && jobs[i].src[0] == "logs" && jobs[i].src[1] == "launcher"
    {
      StepAt(owners, profiles, sessions, i);
    }
  }

  lemma KeptIsNotDeleted(owners: seq<Path>, profiles: Name, sessions: seq<Session>, k: nat)
    requires DistinctSteps(owners, sessions) && k < |sessions| && !sessions[k].expired
    ensures !DeletesId(Steps(owners, profiles, sessions), sessions[k].id)
  {
    var jobs := Steps(owners, profiles, sessions);
    forall i | 0 <= i < |jobs| && jobs[i].Delete? ensures jobs[i].src != ["logs", "launcher", sessions[k].id] {
      StepAt(owners, profiles, sessions, i);
      assert jobs[i].src[2] == sessions[i - |owners| - 2].id;
      assert ["logs", "launcher", sessions[k].id][2] == sessions[k].id;
    }
  }

  lemma EachFits(setting: Setting, jobs: seq<Job>, job: Job, owners: seq<Path>, profiles: Name, sessions: seq<Session>, i: nat)
    requires IsLayout(setting) && DistinctSteps(owners, sessions) && DeletesSessions(jobs) && i < |owners| + 2 + |sessions|
    requires job == if i == 0 then GameJob() else if i <= |owners| then OwnerJob(owners[i - 1])
                    else if i == |owners| + 1 then ProfilesJob(profiles) else SessionJob(sessions[i - |owners| - 2])
    requires forall k | 0 <= k < |sessions| && !sessions[k].expired :: !DeletesId(jobs, sessions[k].id)
    ensures FitStep(setting, jobs, job)
  {
    if i == 0 {
      GameFits(setting, jobs);
    } else if i <= |owners| {
      OwnerFits(setting, jobs, owners[i - 1]);
    } else if i == |owners| + 1 {
      ProfilesFit(setting, jobs, profiles);
    } else {
      SessionFits(setting, jobs, sessions[i - |owners| - 2]);
    }
  }

  /** No step puts back what an earlier one took. */
  lemma EarlierIsLeft(owners: seq<Path>, profiles: Name, sessions: seq<Session>, i: nat, j: nat)
    requires DistinctSteps(owners, sessions) && !Hidden(profiles) && i < j < |Steps(owners, profiles, sessions)|
    ensures LeavesAlone(Steps(owners, profiles, sessions)[j], Steps(owners, profiles, sessions)[i].src)
  {
    StepAt(owners, profiles, sessions, i);
    StepAt(owners, profiles, sessions, j);
    var src := Steps(owners, profiles, sessions)[i].src;
    if j <= |owners| {
      if i == 0 {
        OwnerLeaves(owners[j - 1], src);
      } else {
        OwnersApart(owners[j - 1], owners[i - 1], src);
      }
    } else if j == |owners| + 1 {
      if i == 0 {
        ProfilesLeave(profiles, src);
      } else {
        ProfilesLeaveOwners(profiles, owners[i - 1], src);
      }
    } else {
      SessionLeavesEarlier(owners, profiles, sessions, i, j - |owners| - 2);
    }
  }

  lemma SessionLeavesEarlier(owners: seq<Path>, profiles: Name, sessions: seq<Session>, i: nat, k: nat)
    requires DistinctSteps(owners, sessions) && k < |sessions| && i < |owners| + 2 + k
    ensures i < |Steps(owners, profiles, sessions)|
    ensures LeavesAlone(SessionJob(sessions[k]), Steps(owners, profiles, sessions)[i].src)
  {
    assert |Steps(owners, profiles, sessions)| == |owners| + 2 + |sessions|;
    StepAt(owners, profiles, sessions, i);
    var src := Steps(owners, profiles, sessions)[i].src;
    if !sessions[k].expired {
      if i <= |owners| + 1 {
        assert src[0] != "logs";
        SessionLeaves(sessions[k], src);
      } else {
        assert src == ["logs", "launcher", sessions[i - |owners| - 2].id];
        SessionLeavesOther(sessions[k], src);
      }
    }
  }

  /** No step is in the way of another. */
  lemma WaysAreLeft(owners: seq<Path>, profiles: Name, sessions: seq<Session>, i: nat, j: nat)
    requires DistinctSteps(owners, sessions) && !Hidden(profiles)
    requires i < |Steps(owners, profiles, sessions)| && j < |Steps(owners, profiles, sessions)|
    requires Steps(owners, profiles, sessions)[i].Move?
    ensures LeavesWay(Steps(owners, profiles, sessions)[j], Steps(owners, profiles, sessions)[i].dst)
  {
    StepAt(owners, profiles, sessions, i);
    StepAt(owners, profiles, sessions, j);
    var dst := Steps(owners, profiles, sessions)[i].dst;
    forall q | Under(dst, q) && q != dst && Steps(owners, profiles, sessions)[j].Move?
      ensures !InRegion(q, Steps(owners, profiles, sessions)[j].src, Steps(owners, profiles, sessions)[j].dst)
    {
      WayShape(owners, profiles, sessions, i, q);
      if j == 0 {
        GameLeaves(q);
      } else if j <= |owners| {
        OwnerLeavesWay(owners, profiles, j - 1, q);
      } else if j == |owners| + 1 {
        ProfilesLeaveWay(owners, profiles, q);
      } else if q != [] && q[0] == "logs" {
        SessionLeavesWay(sessions[j - |owners| - 2], q);
      } else {
        SessionLeaves(sessions[j - |owners| - 2], q);
      }
    }
  }

  /** What is on the way to where a step goes. */
  predicate OnSomeWay(owners: seq<Path>, profiles: Name, q: Path) {
    || q == []
    || (q[0] == "logs" && |q| <= 2)
    || (exists k :: 0 <= k < |owners| && Under(owners[k], q))
    || Under(["plugins", profiles], q)
  }

  lemma WayShape(owners: seq<Path>, profiles: Name, sessions: seq<Session>, i: nat, q: Path)
    requires i < |Steps(owners, profiles, sessions)| && Steps(owners, profiles, sessions)[i].Move?
    requires Under(Steps(owners, profiles, sessions)[i].dst, q) && q != Steps(owners, profiles, sessions)[i].dst
    requires DistinctSteps(owners, sessions)
    ensures OnSomeWay(owners, profiles, q) && (q != [] ==> q[0] == "plugins" || q[0] == "logs")
  {
    StepAt(owners, profiles, sessions, i);
    var dst := Steps(owners, profiles, sessions)[i].dst;
    PrefixIs(dst, q);
    if q != [] {
      assert |q| < |dst| && q[0] == dst[0];
      assert Under(Parent(dst), q) by {
        assert Parent(dst)[..|q|] == q;
      }
      if 0 < i <= |owners| {
        assert Parent(dst) == owners[i - 1];
      } else if i == |owners| + 1 {
        assert Parent(dst) == ["plugins", profiles];
      }
    }
  }

  lemma OwnerLeavesWay(owners: seq<Path>, profiles: Name, k: nat, q: Path)
    requires (forall i | 0 <= i < |owners| :: IsOwner(owners[i])) && !Hidden(profiles) && k < |owners|
    requires OnSomeWay(owners, profiles, q)
    ensures !InRegion(q, OwnerJob(owners[k]).src, OwnerJob(owners[k]).dst)
  {
    if q == [] || q[0] == "logs" {
      OwnerLeaves(owners[k], q);
    } else if Under(["plugins", profiles], q) {
      OwnerLeavesProfiles(owners[k], profiles, q);
    } else {
      var i :| 0 <= i < |owners| && Under(owners[i], q);
      if owners[i] != owners[k] {
        OwnersApart(owners[k], owners[i], q);
      } else {
        PrefixIs(owners[k], q);
        assert OwnerJob(owners[k]).dst[|OwnerJob(owners[k]).dst| - 1] == "data";
        NotInRegion(q, OwnerJob(owners[k]).src, OwnerJob(owners[k]).dst);
      }
    }
  }

  lemma ProfilesLeaveWay(owners: seq<Path>, profiles: Name, q: Path)
    requires (forall i | 0 <= i < |owners| :: IsOwner(owners[i])) && !Hidden(profiles) && OnSomeWay(owners, profiles, q)
    ensures !InRegion(q, ProfilesJob(profiles).src, ProfilesJob(profiles).dst)
  {
    if q == [] || q[0] == "logs" {
      ProfilesLeave(profiles, q);
    } else if Under(["plugins", profiles], q) {
      PrefixIs(["plugins", profiles], q);
      NotInRegion(q, ProfilesJob(profiles).src, ProfilesJob(profiles).dst);
    } else {
      var i :| 0 <= i < |owners| && Under(owners[i], q);
      ProfilesLeaveOwners(profiles, owners[i], q);
    }
  }

  lemma LayoutFits(setting: Setting)
    requires IsLayout(setting)
    ensures FitSetting(setting)
  {
    forall p | setting.Own(p) ensures !Inside(setting.tops, p) {
      forall k | 0 <= k < |TOPS| ensures !(Under(p, TOPS[k]) && p != TOPS[k]) {
        PrefixIs(p, TOPS[k]);
      }
    }
    forall p | setting.Written(p) ensures p !in setting.tops {
      WrittenShape(setting, p);
    }
    RecordsAreDistinct();
  }

  /** The names have different lengths, and so with the mark. */
  lemma RecordsAreDistinct()
    ensures DistinctRecords(RECORDS)
  {
    assert |RECORD_MARK| == 11;
    forall i | 0 <= i < |RECORDS| ensures |RECORDS[i]| == if i == 0 then 12 else if i == 1 then 25 else 19 {
    }
    forall i, j | 0 <= i < |RECORDS| && 0 <= j < |RECORDS| ensures RECORDS[i] != RECORDS[j] + RECORD_MARK {
      assert |RECORDS[j] + RECORD_MARK| == |RECORDS[j]| + 11;
    }
  }

  lemma LaterLeaveGameFiles(owners: seq<Path>, profiles: Name, sessions: seq<Session>, setting: Setting, i: nat)
    requires IsLayout(setting) && DistinctSteps(owners, sessions)
    requires 1 <= i < |Steps(owners, profiles, sessions)|
    ensures LeavesGameFiles(setting, Steps(owners, profiles, sessions)[i])
  {
    StepAt(owners, profiles, sessions, i);
    var job := Steps(owners, profiles, sessions)[i];
    forall p | setting.GameFile(p) ensures LeavesAlone(job, p) && (job.Delete? ==> !Under(p, job.src)) {
      assert p != [] && p[0] == "game";
      if i <= |owners| {
        OwnerLeaves(owners[i - 1], p);
      } else if i == |owners| + 1 {
        ProfilesLeave(profiles, p);
      } else if sessions[i - |owners| - 2].expired {
        PrefixIs(p, job.src);
      } else {
        SessionLeaves(sessions[i - |owners| - 2], p);
      }
    }
  }

  /** These steps are such a list, whatever plugins and old session folders there are. */
  lemma StepsArePlanned(owners: seq<Path>, profiles: Name, sessions: seq<Session>, setting: Setting)
    requires IsLayout(setting) && DistinctSteps(owners, sessions) && !Hidden(profiles)
    ensures Planned(setting, Steps(owners, profiles, sessions))
  {
    var jobs := Steps(owners, profiles, sessions);
    LayoutFits(setting);
    StepsDelete(owners, profiles, sessions);
    forall k | 0 <= k < |sessions| && !sessions[k].expired ensures !DeletesId(jobs, sessions[k].id) {
      KeptIsNotDeleted(owners, profiles, sessions, k);
    }
    forall i | 0 <= i < |jobs| ensures FitStep(setting, jobs, jobs[i]) {
      StepAt(owners, profiles, sessions, i);
      EachFits(setting, jobs, jobs[i], owners, profiles, sessions, i);
    }
    forall i, j | 0 <= i < j < |jobs| ensures LeavesAlone(jobs[j], jobs[i].src) {
      EarlierIsLeft(owners, profiles, sessions, i, j);
    }
    forall i, j | 0 <= i < |jobs| && 0 <= j < |jobs| && jobs[i].Move? ensures LeavesWay(jobs[j], jobs[i].dst) {
      WaysAreLeft(owners, profiles, sessions, i, j);
    }
    forall i | 1 <= i < |jobs| ensures LeavesGameFiles(setting, jobs[i]) {
      LaterLeaveGameFiles(owners, profiles, sessions, setting, i);
    }
  }
}
