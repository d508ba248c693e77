/** The whole move into the new layout: a sweep, one step after another, the records
    rewritten, and the marker only when all is done, at every moment a run may stop. */
module Migration {
  import opened Wrappers
  import opened DiskModel
  import opened BesideNames
  import opened TemporaryNames
  import opened FolderWalks
  import opened LayoutKeeps
  import opened LayoutRuns
  import opened Disks
  import opened CopyStates
  import opened LayoutCopy
  import opened LayoutMoves
  import opened LeftoverSweep
  import opened MigrationSteps

  // ---- What one state keeps of another ------------------------------------------------

  /** Where contents do not count, since the migration does away with them there. */
  ghost function AwayFor(setting: Setting, jobs: seq<Job>, content: int): iset<Path> {
    Away(setting, jobs, setting.Changes(content))
  }

  ghost predicate HasNamed(setting: Setting, jobs: seq<Job>, x: Files, content: int) {
    exists q :: Holds(x, q, content) && Real(q) && q !in AwayFor(setting, jobs, content)
  }

  /** Whatever a file held whose name is no temporary one such a file still holds; what
      the migration does away with is not counted. */
  ghost predicate NamedSurvives(setting: Setting, jobs: seq<Job>, a: Files, x: Files) {
    forall p {:trigger p in a} | p in a && a[p].File? && Real(p) && p !in AwayFor(setting, jobs, a[p].content) ::
      HasNamed(setting, jobs, x, a[p].content)
  }

  /** The same of every file. */
  ghost predicate AllSurvives(setting: Setting, jobs: seq<Job>, a: Files, x: Files) {
    forall p {:trigger p in a} | p in a && a[p].File? && p !in AwayFor(setting, jobs, a[p].content) ::
      HasContent(x, a[p].content, AwayFor(setting, jobs, a[p].content))
  }

  ghost predicate WaysOpen(jobs: seq<Job>, x: Files) {
    forall i {:trigger jobs[i]} | 0 <= i < |jobs| && jobs[i].Move? :: WayIsOpen(x, jobs[i].dst)
  }

  /** No file stands where a folder to be swept would, no folder where the migration
      writes. */
  ghost predicate PlacesFree(setting: Setting, x: Files) {
    && (forall k {:trigger setting.tops[k]} | 0 <= k < |setting.tops| :: !IsFile(x, setting.tops[k]))
    && (forall p {:trigger setting.Scratch(p)} | setting.Scratch(p) :: !IsFolder(x, p))
  }

  predicate PlainSteps(jobs: seq<Job>) {
    forall i {:trigger jobs[i]} | 0 <= i < |jobs| && jobs[i].Move? :: jobs[i].dst != [] && PlainPath(Parent(jobs[i].dst))
  }

  /** A state a migration came to from another. */
  ghost predicate Follows(setting: Setting, jobs: seq<Job>, a: Files, x: Files) {
    && NamedSurvives(setting, jobs, a, x)
    && (WaysOpen(jobs, a) ==> WaysOpen(jobs, x))
    && (PlacesFree(setting, a) ==> PlacesFree(setting, x))
    && (PlainSteps(jobs) && PlainFolders(a) ==> PlainFolders(x))
  }

  lemma FollowsOn(setting: Setting, jobs: seq<Job>, a: Files, b: Files, x: Files)
    requires Follows(setting, jobs, a, b) && Follows(setting, jobs, b, x)
    ensures Follows(setting, jobs, a, x)
  {
    forall p | p in a && a[p].File? && Real(p) && p !in AwayFor(setting, jobs, a[p].content)
      ensures HasNamed(setting, jobs, x, a[p].content)
    {
      assert HasNamed(setting, jobs, b, a[p].content);
      var q :| Holds(b, q, a[p].content) && Real(q) && q !in AwayFor(setting, jobs, a[p].content);
    }
  }

  lemma AllSurvivesOn(setting: Setting, jobs: seq<Job>, a: Files, b: Files, x: Files)
    requires AllSurvives(setting, jobs, a, b) && AllSurvives(setting, jobs, b, x)
    ensures AllSurvives(setting, jobs, a, x)
  {
    forall p | p in a && a[p].File? && p !in AwayFor(setting, jobs, a[p].content)
      ensures HasContent(x, a[p].content, AwayFor(setting, jobs, a[p].content))
    {
      assert HasContent(b, a[p].content, AwayFor(setting, jobs, a[p].content));
      var q :| q !in AwayFor(setting, jobs, a[p].content) && Holds(b, q, a[p].content);
    }
  }

  /** Where nothing that counts was touched everything stands where it was. */
  lemma UntouchedSurvives(setting: Setting, jobs: seq<Job>, a: Files, x: Files)
    requires forall p {:trigger p in a} | p in a && a[p].File? && p !in AwayFor(setting, jobs, a[p].content) :: SameAt(a, x, p)
    ensures NamedSurvives(setting, jobs, a, x) && AllSurvives(setting, jobs, a, x)
  {
    forall p | p in a && a[p].File? && p !in AwayFor(setting, jobs, a[p].content)
      ensures HasContent(x, a[p].content, AwayFor(setting, jobs, a[p].content))
      ensures Real(p) ==> HasNamed(setting, jobs, x, a[p].content)
    {
      assert Holds(x, p, a[p].content);
    }
  }

  lemma FollowsItself(setting: Setting, jobs: seq<Job>, a: Files)
    ensures Follows(setting, jobs, a, a) && AllSurvives(setting, jobs, a, a)
  {
    UntouchedSurvives(setting, jobs, a, a);
  }

  /** The copies cost nothing that counts. */
  ghost predicate CostNothing(setting: Setting, jobs: seq<Job>, copies: seq<Copying>) {
    AllSpared(copies, Away(setting, jobs, true)) && AllSpared(copies, Away(setting, jobs, false))
  }

  /** A state of the steps and of writing the marker: what counts is lost only with what
      the copies to other volumes cleared away, and the marker stands only when every
      step is done. */
  ghost predicate StateTrusty(setting: Setting, jobs: seq<Job>, a: Files, x: Files, copies: seq<Copying>) {
    && Follows(setting, jobs, a, x)
    && (CostNothing(setting, jobs, copies) ==> AllSurvives(setting, jobs, a, x))
    && (setting.IsCurrent(x) ==> AllDone(x, jobs))
  }

  ghost predicate Trusty(setting: Setting, jobs: seq<Job>, u: Trace, v: Trace) {
    && u.history <= v.history && u.copies <= v.copies
    && StateTrusty(setting, jobs, u.files, v.files, v.copies[|u.copies|..])
    && forall i {:trigger v.history[i]} | |u.history| <= i < |v.history| ::
         StateTrusty(setting, jobs, u.files, v.history[i], v.copies[|u.copies|..])
  }

  lemma StateTrustyOn(setting: Setting, jobs: seq<Job>, a: Files, b: Files, x: Files, c1: seq<Copying>, c2: seq<Copying>)
    requires StateTrusty(setting, jobs, a, b, c1) && StateTrusty(setting, jobs, b, x, c2)
    ensures StateTrusty(setting, jobs, a, x, c1 + c2)
  {
    FollowsOn(setting, jobs, a, b, x);
    SplitCopies(c1, c2);
    if CostNothing(setting, jobs, c1 + c2) {
      AllSurvivesOn(setting, jobs, a, b, x);
    }
  }

  lemma MoreCopiesTrusty(setting: Setting, jobs: seq<Job>, a: Files, x: Files, c1: seq<Copying>, c2: seq<Copying>)
    requires StateTrusty(setting, jobs, a, x, c1)
    ensures StateTrusty(setting, jobs, a, x, c1 + c2)
  {
    SplitCopies(c1, c2);
  }

  lemma TrustyChain(setting: Setting, jobs: seq<Job>, u: Trace, v: Trace, w: Trace)
    requires Trusty(setting, jobs, u, v) && Trusty(setting, jobs, v, w)
    ensures Trusty(setting, jobs, u, w)
  {
    var c1, c2 := v.copies[|u.copies|..], w.copies[|v.copies|..];
    NewCopies(u.copies, v.copies, w.copies);
    StateTrustyOn(setting, jobs, u.files, v.files, w.files, c1, c2);
    forall i | |u.history| <= i < |w.history| ensures StateTrusty(setting, jobs, u.files, w.history[i], c1 + c2) {
      if i < |v.history| {
        assert w.history[i] == v.history[i];
        MoreCopiesTrusty(setting, jobs, u.files, v.history[i], c1, c2);
      } else {
        StateTrustyOn(setting, jobs, u.files, v.files, w.history[i], c1, c2);
      }
    }
  }

  lemma TrustyItself(setting: Setting, jobs: seq<Job>, u: Trace)
    requires !setting.IsCurrent(u.files)
    ensures Trusty(setting, jobs, u, u)
  {
    FollowsItself(setting, jobs, u.files);
  }

  // ---- The sweep -------------------------------------------------------------------------

  lemma SweptFollows(setting: Setting, jobs: seq<Job>, a: Files, x: Files)
    requires Planned(setting, jobs) && Swept(a, x, setting.tops)
    ensures Follows(setting, jobs, a, x) && setting.IsCurrent(x) == setting.IsCurrent(a)
  {
    forall p | p in a && a[p].File? && Real(p) && p !in AwayFor(setting, jobs, a[p].content)
      ensures HasNamed(setting, jobs, x, a[p].content)
    {
      assert !Leftover(a, setting.tops, p);
      assert Holds(x, p, a[p].content);
    }
    assert setting.Own([setting.marker]);
    assert !Leftover(a, setting.tops, [setting.marker]);
    if WaysOpen(jobs, a) {
      forall i | 0 <= i < |jobs| && jobs[i].Move? ensures WayIsOpen(x, jobs[i].dst) {
        assert WayIsOpen(a, jobs[i].dst);
      }
    }
  }

  // ---- A step that moves something -----------------------------------------------------------

  lemma AloneIsSame(job: Job, a: Files, b: Files, p: Path)
    requires job.Move? && Keeps(a, b, job.src, job.dst) && LeavesAlone(job, p)
    ensures SameAt(a, b, p)
  {
    assert Same(a, b, job.dst, p);
  }

  lemma KeptIsNamed(setting: Setting, jobs: seq<Job>, job: Job, a: Files, x: Files)
    requires job.Move? && FitStep(setting, jobs, job) && Keeps(a, x, job.src, job.dst)
    ensures NamedSurvives(setting, jobs, a, x)
  {
    var s, t := job.src, job.dst;
    forall p | p in a && a[p].File? && Real(p) && p !in AwayFor(setting, jobs, a[p].content)
      ensures HasNamed(setting, jobs, x, a[p].content)
    {
      assert Held(x, p, s, t, a[p].content);
      var q :| Holds(x, q, a[p].content) && MayStand(q, p, s, t);
      StandsNamed(q, p, s, t);
      StaysCounted(setting, jobs, job, setting.Changes(a[p].content), p, q);
    }
  }

  lemma StaysCounted(setting: Setting, jobs: seq<Job>, job: Job, changes: bool, p: Path, q: Path)
    requires job.Move? && BringsNothing(setting, jobs, job)
    requires p !in Away(setting, jobs, changes) && MayStand(q, p, job.src, job.dst)
    ensures q !in Away(setting, jobs, changes)
  {
    assert Closed(Away(setting, jobs, changes), job.src, job.dst);
  }

  lemma KeptSurvives(setting: Setting, jobs: seq<Job>, job: Job, a: Files, x: Files, copies: seq<Copying>)
    requires job.Move? && BringsNothing(setting, jobs, job) && StateKept(a, x, copies, job.src, job.dst)
    requires CostNothing(setting, jobs, copies)
    ensures AllSurvives(setting, jobs, a, x)
  {
    assert Survives(a, x, Away(setting, jobs, true)) && Survives(a, x, Away(setting, jobs, false));
  }

  lemma WaysStayOpen(setting: Setting, jobs: seq<Job>, n: nat, a: Files, x: Files)
    requires Planned(setting, jobs) && n < |jobs| && jobs[n].Move? && WaysOpen(jobs, a)
    requires Keeps(a, x, jobs[n].src, jobs[n].dst)
    ensures WaysOpen(jobs, x)
  {
    forall i | 0 <= i < |jobs| && jobs[i].Move? ensures WayIsOpen(x, jobs[i].dst) {
      assert LeavesWay(jobs[n], jobs[i].dst) && WayIsOpen(a, jobs[i].dst);
      forall q | q in x && Under(jobs[i].dst, q) && q != jobs[i].dst ensures x[q].Folder? {
        assert Same(a, x, jobs[n].dst, q);
      }
    }
  }

  lemma PlacesStayFree(setting: Setting, jobs: seq<Job>, job: Job, a: Files, x: Files)
    requires job.Move? && FitStep(setting, jobs, job) && PlacesFree(setting, a) && !Done(a, job)
    requires Keeps(a, x, job.src, job.dst) && StaysPlain(a, x, job.src, job.dst)
    ensures PlacesFree(setting, x)
  {
    forall p | setting.Scratch(p) ensures !IsFolder(x, p) {
      assert setting.Written(p);
      assert !Under(job.dst, p) && (Under(p, job.dst) ==> setting.Scratch(job.src + p[|job.dst|..]));
    }
    forall k | 0 <= k < |setting.tops| ensures !IsFile(x, setting.tops[k]) {
      var top := setting.tops[k];
      assert LeavesTop(job, top) && !IsFile(a, top);
      if !InRegion(top, job.src, job.dst) {
        assert Same(a, x, job.dst, top);
      }
    }
  }

  lemma KeptFollows(setting: Setting, jobs: seq<Job>, n: nat, a: Files, x: Files, copies: seq<Copying>)
    requires Planned(setting, jobs) && n < |jobs| && jobs[n].Move? && !Done(a, jobs[n]) && !setting.IsCurrent(a)
    requires StateKept(a, x, copies, jobs[n].src, jobs[n].dst)
    ensures StateTrusty(setting, jobs, a, x, copies) && !setting.IsCurrent(x)
  {
    var job := jobs[n];
    assert FitStep(setting, jobs, job);
    KeptIsNamed(setting, jobs, job, a, x);
    AloneIsSame(job, a, x, [setting.marker]);
    if WaysOpen(jobs, a) {
      WaysStayOpen(setting, jobs, n, a, x);
    }
    if PlacesFree(setting, a) {
      PlacesStayFree(setting, jobs, job, a, x);
    }
    if PlainSteps(jobs) && PlainFolders(a) {
      PlainStays(a, x, job.src, job.dst);
    }
    if CostNothing(setting, jobs, copies) {
      KeptSurvives(setting, jobs, job, a, x, copies);
    }
  }

  lemma KeptIsTrusty(setting: Setting, jobs: seq<Job>, n: nat, u: Trace, v: Trace)
    requires Planned(setting, jobs) && n < |jobs| && jobs[n].Move? && !Done(u.files, jobs[n]) && !setting.IsCurrent(u.files)
    requires Kept(u, v, jobs[n].src, jobs[n].dst)
    ensures Trusty(setting, jobs, u, v) && !setting.IsCurrent(v.files)
  {
    var copies := v.copies[|u.copies|..];
    KeptFollows(setting, jobs, n, u.files, v.files, copies);
    forall i | |u.history| <= i < |v.history| ensures StateTrusty(setting, jobs, u.files, v.history[i], copies) {
      KeptFollows(setting, jobs, n, u.files, v.history[i], copies);
    }
  }

  // ---- A step that deletes something ----------------------------------------------------------

  lemma DeletedFollows(setting: Setting, jobs: seq<Job>, n: nat, a: Files, x: Files, copies: seq<Copying>)
    requires Planned(setting, jobs) && n < |jobs| && jobs[n].Delete? && !setting.IsCurrent(a)
    requires Lessened(a, x, jobs[n].src)
    ensures StateTrusty(setting, jobs, a, x, copies) && !setting.IsCurrent(x)
  {
    forall p | p in a && a[p].File? && p !in AwayFor(setting, jobs, a[p].content) ensures SameAt(a, x, p) {
      assert !Expired(jobs, p);
    }
    UntouchedSurvives(setting, jobs, a, x);
    if WaysOpen(jobs, a) {
      forall i | 0 <= i < |jobs| && jobs[i].Move? ensures WayIsOpen(x, jobs[i].dst) {
        assert WayIsOpen(a, jobs[i].dst);
      }
    }
  }

  lemma DeletedIsTrusty(setting: Setting, jobs: seq<Job>, n: nat, u: Trace, v: Trace)
    requires Planned(setting, jobs) && n < |jobs| && jobs[n].Delete? && !setting.IsCurrent(u.files)
    requires AllLessened(u, v, jobs[n].src)
    ensures Trusty(setting, jobs, u, v) && !setting.IsCurrent(v.files)
  {
    var copies := v.copies[|u.copies|..];
    DeletedFollows(setting, jobs, n, u.files, v.files, copies);
    forall i | |u.history| <= i < |v.history| ensures StateTrusty(setting, jobs, u.files, v.history[i], copies) {
      DeletedFollows(setting, jobs, n, u.files, v.history[i], copies);
    }
  }

  /** What earlier steps finished stays finished. */
  lemma EarlierStayDone(setting: Setting, jobs: seq<Job>, n: nat, b: Files, c: Files)
    requires Planned(setting, jobs) && n < |jobs| && DoneUpTo(b, jobs, n) && Done(c, jobs[n])
    requires if jobs[n].Move? then Keeps(b, c, jobs[n].src, jobs[n].dst) else Lessened(b, c, jobs[n].src)
    ensures DoneUpTo(c, jobs, n + 1)
  {
    forall i | 0 <= i <= n ensures Done(c, jobs[i]) {
      if i < n {
        assert Done(b, jobs[i]);
        assert LeavesAlone(jobs[n], jobs[i].src);
        if jobs[n].Move? {
          AloneIsSame(jobs[n], b, c, jobs[i].src);
        }
      }
    }
  }

  // ---- Overwriting -------------------------------------------------------------------------

  /** What the migration may overwrite, as the disk is. */
  predicate MayOverwrite(setting: Setting, a: Files, p: Path) {
    setting.Scratch(p) || (setting.IsRecord(p) && IsFile(a, p) && setting.Changes(a[p].content))
  }

  /** Nothing else changed, and no folder is new. */
  ghost predicate Overwritten(setting: Setting, a: Files, x: Files) {
    && (forall p {:trigger SameAt(a, x, p)} | !MayOverwrite(setting, a, p) :: SameAt(a, x, p))
    && (forall p {:trigger IsFolder(x, p)} | IsFolder(x, p) :: IsFolder(a, p))
  }

  lemma OverwrittenFollows(setting: Setting, jobs: seq<Job>, a: Files, x: Files)
    requires Planned(setting, jobs) && Overwritten(setting, a, x)
    ensures Follows(setting, jobs, a, x) && AllSurvives(setting, jobs, a, x)
  {
    forall p | p in a && a[p].File? && p !in AwayFor(setting, jobs, a[p].content) ensures SameAt(a, x, p) {
      assert !MayOverwrite(setting, a, p);
    }
    UntouchedSurvives(setting, jobs, a, x);
    if WaysOpen(jobs, a) {
      OverwrittenLeavesWays(setting, jobs, a, x);
    }
    forall k | PlacesFree(setting, a) && 0 <= k < |setting.tops| ensures !IsFile(x, setting.tops[k]) {
      assert setting.tops[k] in setting.tops && (MayOverwrite(setting, a, setting.tops[k]) ==> setting.Written(setting.tops[k]));
      assert SameAt(a, x, setting.tops[k]);
    }
    forall q | PlainFolders(a) && q in x && x[q].Folder? ensures Real(q) {
      assert IsFolder(x, q);
    }
  }

  lemma OverwrittenLeavesWays(setting: Setting, jobs: seq<Job>, a: Files, x: Files)
    requires Planned(setting, jobs) && Overwritten(setting, a, x) && WaysOpen(jobs, a)
    ensures WaysOpen(jobs, x)
  {
    forall i | 0 <= i < |jobs| && jobs[i].Move? ensures WayIsOpen(x, jobs[i].dst) {
      assert FitStep(setting, jobs, jobs[i]) && WayIsOpen(a, jobs[i].dst);
      forall q | q in x && Under(jobs[i].dst, q) && q != jobs[i].dst ensures x[q].Folder? {
        assert MayOverwrite(setting, a, q) ==> setting.Written(q);
        assert SameAt(a, x, q);
      }
    }
  }

  lemma OverwrittenIsWritten(setting: Setting, a: Files, p: Path)
    ensures MayOverwrite(setting, a, p) ==> setting.Written(p)
  {
  }

  lemma OverwrittenStaysDone(setting: Setting, jobs: seq<Job>, k: nat, a: Files, x: Files)
    requires Planned(setting, jobs) && k <= |jobs| && DoneUpTo(a, jobs, k) && Overwritten(setting, a, x)
    ensures DoneUpTo(x, jobs, k)
  {
    forall i | 0 <= i < k ensures Done(x, jobs[i]) {
      assert Done(a, jobs[i]) && FitStep(setting, jobs, jobs[i]);
      OverwrittenIsWritten(setting, a, jobs[i].src);
      assert SameAt(a, x, jobs[i].src);
    }
  }

  /** A write of the migration's own, while the first `k` steps are done: if it may make
      the marker then all of them are. */
  lemma TrustyStep(setting: Setting, jobs: seq<Job>, k: nat, u: Trace, v: Trace, x: Files)
    requires Planned(setting, jobs) && Trusty(setting, jobs, u, v) && k <= |jobs| && DoneUpTo(v.files, jobs, k)
    requires Overwritten(setting, v.files, x) && (setting.IsCurrent(x) ==> k == |jobs|)
    ensures Trusty(setting, jobs, u, Stepped(v, x)) && DoneUpTo(x, jobs, k)
  {
    OverwrittenFollows(setting, jobs, v.files, x);
    OverwrittenStaysDone(setting, jobs, k, v.files, x);
    assert StateTrusty(setting, jobs, v.files, x, []);
    StateTrustyOn(setting, jobs, u.files, v.files, x, v.copies[|u.copies|..], []);
    assert v.copies[|u.copies|..] + [] == v.copies[|u.copies|..];
  }

  lemma ScribbledIsOverwritten(setting: Setting, a: Files, x: Files, p: Path)
    requires setting.Scratch(p) && Scribbled(a, x, p)
    ensures Overwritten(setting, a, x)
  {
    forall q | q != p ensures SameAt(a, x, q) {
    }
  }

  lemma RenamedOverIsOverwritten(setting: Setting, a: Files, x: Files, from: Path, to: Path)
    requires setting.Scratch(from) && MayOverwrite(setting, a, to) && IsFile(a, from)
    requires x == (a - {from})[to := a[from]]
    ensures Overwritten(setting, a, x)
  {
    forall q | q != from && q != to ensures SameAt(a, x, q) {
    }
  }

  // ---- The migration --------------------------------------------------------------------

  /** Nothing stands in the way of any step. */
  ghost predicate MayMigrate(setting: Setting, jobs: seq<Job>, world: World, x: Files) {
    WaysOpen(jobs, x) && PlacesFree(setting, x) && (world.OneVolume() || (PlainSteps(jobs) && PlainFolders(x)))
  }

  lemma MayGoOn(setting: Setting, jobs: seq<Job>, world: World, a: Files, x: Files)
    requires MayMigrate(setting, jobs, world, a) && Follows(setting, jobs, a, x)
    ensures MayMigrate(setting, jobs, world, x)
  {
  }

  lemma StepMaySucceed(setting: Setting, jobs: seq<Job>, world: World, n: nat, k: nat, x: Files)
    requires Planned(setting, jobs) && n < |jobs| && jobs[n].Move? && MayMigrate(setting, jobs, world, x) && world.NoFailure(k)
    ensures MaySucceed(world, k, x, jobs[n].src, jobs[n].dst)
  {
    assert FitStep(setting, jobs, jobs[n]) && WayIsOpen(x, jobs[n].dst);
  }

  // ---- What becomes of the records -------------------------------------------------------

  /** What one step does to the disk: nothing if it is done, else, where its place was
      free and it went through, all of its source stands there. */
  ghost predicate StepDid(world: World, job: Job, a: Files, x: Files, ok: bool) {
    && (Done(a, job) ==> x == a)
    && (ok && !Done(a, job) && job.Move? && job.dst != [] && job.dst !in a ==> MovedWhole(world, a, x, job.src, job.dst))
  }

  ghost predicate SameGameFiles(setting: Setting, a: Files, x: Files) {
    forall p {:trigger SameAt(a, x, p)} | setting.GameFile(p) :: SameAt(a, x, p)
  }

  /** A record holds what it is rewritten to, or still what it held if it names no old
      place; its temporary name is not left behind. */
  ghost predicate RecordFate(setting: Setting, a: Files, x: Files, name: Name) {
    var record, temporary := setting.Record(name), setting.RecordTemp(name);
    && (if IsFile(a, record) then Holds(x, record, setting.Rewritten(a[record].content)) else SameAt(a, x, record))
    && (temporary !in a ==> temporary !in x)
  }

  ghost predicate AllFates(setting: Setting, a: Files, x: Files) {
    forall i {:trigger setting.records[i]} | 0 <= i < |setting.records| :: RecordFate(setting, a, x, setting.records[i])
  }

  ghost predicate OthersStand(setting: Setting, a: Files, x: Files) {
    forall p {:trigger SameAt(a, x, p)} | !setting.GameFile(p) :: SameAt(a, x, p)
  }

  /** The first `r` records are rewritten, the others and everything else stand. */
  ghost predicate RewrittenUpTo(setting: Setting, a: Files, x: Files, r: nat)
    requires r <= |setting.records|
  {
    && OthersStand(setting, a, x)
    && (forall i {:trigger setting.records[i]} | 0 <= i < r :: RecordFate(setting, a, x, setting.records[i]))
    && (forall i {:trigger setting.records[i]} | r <= i < |setting.records| ::
          SameAt(a, x, setting.Record(setting.records[i])) && SameAt(a, x, setting.RecordTemp(setting.records[i])))
  }

  lemma RecordsApart(setting: Setting, i: nat, j: nat)
    requires DistinctRecords(setting.records) && i < |setting.records| && j < |setting.records|
    ensures setting.Record(setting.records[i]) != setting.RecordTemp(setting.records[j])
    ensures i != j ==> setting.Record(setting.records[i]) != setting.Record(setting.records[j])
    ensures i != j ==> setting.RecordTemp(setting.records[i]) != setting.RecordTemp(setting.records[j])
  {
    var n, a, b := |setting.game|, setting.records[i], setting.records[j];
    assert setting.Record(a)[n] == a && setting.Record(b)[n] == b;
    assert setting.RecordTemp(a)[n] == a + RECORD_MARK && setting.RecordTemp(b)[n] == b + RECORD_MARK;
    assert (a + RECORD_MARK)[..|a + RECORD_MARK| - |RECORD_MARK|] == a;
    assert (b + RECORD_MARK)[..|b + RECORD_MARK| - |RECORD_MARK|] == b;
  }

  lemma RewrittenOneMore(setting: Setting, a: Files, b: Files, x: Files, r: nat)
    requires FitSetting(setting) && r < |setting.records| && RewrittenUpTo(setting, a, b, r)
    requires RecordWritten(setting, b, x, setting.records[r])
    ensures RewrittenUpTo(setting, a, x, r + 1)
  {
    var record, temporary := setting.Record(setting.records[r]), setting.RecordTemp(setting.records[r]);
    assert SameAt(a, b, record) && SameAt(a, b, temporary);
    assert setting.GameFile(record) && setting.GameFile(temporary);
    forall p | p != record && p != temporary ensures SameAt(b, x, p) {
    }
    forall p | !setting.GameFile(p) ensures SameAt(a, x, p) {
      assert SameAt(a, b, p) && SameAt(b, x, p);
    }
    forall i | 0 <= i < |setting.records| && i != r
      ensures i < r ==> RecordFate(setting, a, x, setting.records[i])
      ensures i > r ==> SameAt(a, x, setting.Record(setting.records[i])) && SameAt(a, x, setting.RecordTemp(setting.records[i]))
    {
      RecordsApart(setting, i, r);
      RecordsApart(setting, r, i);
      assert SameAt(b, x, setting.Record(setting.records[i])) && SameAt(b, x, setting.RecordTemp(setting.records[i]));
    }
  }

  lemma FatesStay(setting: Setting, a: Files, b: Files, x: Files)
    requires AllFates(setting, a, b) && SameGameFiles(setting, b, x)
    ensures AllFates(setting, a, x)
  {
    forall i | 0 <= i < |setting.records| ensures RecordFate(setting, a, x, setting.records[i]) {
      var record, temporary := setting.Record(setting.records[i]), setting.RecordTemp(setting.records[i]);
      assert RecordFate(setting, a, b, setting.records[i]);
      assert setting.GameFile(record) && setting.GameFile(temporary);
      assert SameAt(b, x, record) && SameAt(b, x, temporary);
    }
  }

  lemma SameGameFilesOn(setting: Setting, a: Files, b: Files, x: Files)
    requires SameGameFiles(setting, a, b) && SameGameFiles(setting, b, x)
    ensures SameGameFiles(setting, a, x)
  {
    forall p | setting.GameFile(p) ensures SameAt(a, x, p) {
      assert SameAt(a, b, p) && SameAt(b, x, p);
    }
  }

  lemma LaterLeavesRecords(setting: Setting, jobs: seq<Job>, n: nat, a: Files, x: Files)
    requires Planned(setting, jobs) && 1 <= n < |jobs|
    requires if jobs[n].Move? then Keeps(a, x, jobs[n].src, jobs[n].dst) else Lessened(a, x, jobs[n].src)
    ensures SameGameFiles(setting, a, x)
  {
    assert LeavesGameFiles(setting, jobs[n]);
    forall p | setting.GameFile(p) ensures SameAt(a, x, p) {
      if jobs[n].Move? {
        AloneIsSame(jobs[n], a, x, p);
      }
    }
  }

  /** Every step but the first is done. */
  predicate LaterDone(x: Files, jobs: seq<Job>) {
    forall i | 1 <= i < |jobs| :: Done(x, jobs[i])
  }

  lemma GameFileIsWritten(setting: Setting, p: Path)
    ensures setting.GameFile(p) ==> setting.Written(p)
  {
  }

  lemma LaterStayDone(setting: Setting, jobs: seq<Job>, a: Files, x: Files)
    requires Planned(setting, jobs) && LaterDone(a, jobs) && OthersStand(setting, a, x)
    ensures LaterDone(x, jobs)
  {
    forall i | 1 <= i < |jobs| ensures Done(x, jobs[i]) {
      assert FitStep(setting, jobs, jobs[i]) && !setting.Written(jobs[i].src);
      GameFileIsWritten(setting, jobs[i].src);
      assert SameAt(a, x, jobs[i].src);
    }
  }

  ghost predicate OwnAside(setting: Setting, a: Files, x: Files) {
    forall p {:trigger SameAt(a, x, p)} | !setting.Own(p) :: SameAt(a, x, p)
  }

  lemma OwnAsideOn(setting: Setting, a: Files, b: Files, x: Files)
    requires OwnAside(setting, a, b) && OwnAside(setting, b, x)
    ensures OwnAside(setting, a, x)
  {
    forall p | !setting.Own(p) ensures SameAt(a, x, p) {
      assert SameAt(a, b, p) && SameAt(b, x, p);
    }
  }

  lemma ScribbledOwn(setting: Setting, a: Files, b: Files, x: Files)
    requires Scribbled(a, b, [setting.temporary]) && Scribbled(b, x, [setting.temporary])
    ensures OwnAside(setting, a, x)
  {
    forall p | !setting.Own(p) ensures SameAt(a, x, p) {
      assert p != [setting.temporary];
    }
  }

  lemma RenamedOwn(setting: Setting, a: Files, x: Files)
    requires [setting.temporary] in a && x == (a - {[setting.temporary]})[[setting.marker] := a[[setting.temporary]]]
    ensures OwnAside(setting, a, x)
  {
    forall p | !setting.Own(p) ensures SameAt(a, x, p) {
      assert p != [setting.temporary] && p != [setting.marker];
    }
  }

  lemma OwnIsNoRecord(setting: Setting, a: Files, x: Files)
    requires FitSetting(setting) && OwnAside(setting, a, x)
    ensures SameGameFiles(setting, a, x)
  {
    forall p | setting.GameFile(p) ensures SameAt(a, x, p) {
      var i :| 0 <= i < |setting.records| && (p == setting.Record(setting.records[i]) || p == setting.RecordTemp(setting.records[i]));
      assert !setting.Own(p);
    }
  }

  /** The first step made `c` of `a`. */
  ghost predicate GameStep(world: World, jobs: seq<Job>, a: Files, c: Files) {
    if jobs == [] then c == a else StepDid(world, jobs[0], a, c, true)
  }

  /** How a migration ends that went through: the first step made `c` of `a`, every record
      in its folder then is rewritten, the marker stands, and if no later step had
      anything to do the rest is as it was then. */
  ghost predicate Ended(setting: Setting, jobs: seq<Job>, world: World, a: Files, c: Files, x: Files) {
    && GameStep(world, jobs, a, c) && AllFates(setting, c, x)
    && Holds(x, [setting.marker], setting.text) && [setting.temporary] !in x
    && (LaterDone(c, jobs) ==>
          forall p {:trigger SameAt(c, x, p)} | !setting.GameFile(p) && !setting.Own(p) :: SameAt(c, x, p))
  }

  /** No record in its folder is one to be rewritten. */
  ghost predicate NoneNamesOldPlace(setting: Setting, x: Files) {
    forall i {:trigger setting.records[i]} | 0 <= i < |setting.records| ::
      IsFile(x, setting.Record(setting.records[i])) ==> !setting.Changes(x[setting.Record(setting.records[i])].content)
  }

  lemma RewrittenNameNone(setting: Setting, c: Files, x: Files)
    requires setting.RewritesOnce() && AllFates(setting, c, x)
    ensures NoneNamesOldPlace(setting, x)
  {
    forall i | 0 <= i < |setting.records| && IsFile(x, setting.Record(setting.records[i]))
      ensures !setting.Changes(x[setting.Record(setting.records[i])].content)
    {
      assert RecordFate(setting, c, x, setting.records[i]);
    }
  }

  class Migrator {
    const disk: Disk
    const mover: Mover
    const setting: Setting

    constructor (disk: Disk, setting: Setting)
      ensures this.disk == disk && mover.disk == disk && this.setting == setting
    {
      this.disk := disk;
      this.mover := new Mover(disk);
      this.setting := setting;
    }

    /** One step, if it is still to do. */
    method RunJob(jobs: seq<Job>, n: nat) returns (ok: bool)
      requires mover.disk == disk && disk.Valid() && Planned(setting, jobs) && n < |jobs|
      requires !setting.IsCurrent(disk.files) && DoneUpTo(disk.files, jobs, n)
      modifies disk
      ensures disk.Valid() && !setting.IsCurrent(disk.files) && Trusty(setting, jobs, old(disk.Now()), disk.Now())
      ensures jobs[n].Move? ==> Kept(old(disk.Now()), disk.Now(), jobs[n].src, jobs[n].dst)
      ensures jobs[n].Delete? ==> AllLessened(old(disk.Now()), disk.Now(), jobs[n].src)
      ensures StepDid(disk.world, jobs[n], old(disk.files), disk.files, ok)
      ensures ok ==> DoneUpTo(disk.files, jobs, n + 1)
      ensures disk.world.OneVolume() ==> disk.copies == old(disk.copies)
      ensures disk.tried >= old(disk.tried)
      ensures disk.world.NoFailure(old(disk.tried)) && MayMigrate(setting, jobs, disk.world, old(disk.files)) ==> ok
    {
      match jobs[n]
      case Move(src, dst, folder) =>
        ok := MoveJob(jobs, n, src, dst, folder);
      case Delete(src) =>
        ok := DeleteJob(jobs, n, src);
    }

    method MoveJob(jobs: seq<Job>, n: nat, src: Path, dst: Path, folder: bool) returns (ok: bool)
      requires mover.disk == disk && disk.Valid() && Planned(setting, jobs) && n < |jobs| && jobs[n] == Move(src, dst, folder)
      requires !setting.IsCurrent(disk.files) && DoneUpTo(disk.files, jobs, n)
      modifies disk
      ensures disk.Valid() && !setting.IsCurrent(disk.files) && Trusty(setting, jobs, old(disk.Now()), disk.Now())
      ensures Kept(old(disk.Now()), disk.Now(), src, dst)
      ensures StepDid(disk.world, jobs[n], old(disk.files), disk.files, ok)
      ensures ok ==> DoneUpTo(disk.files, jobs, n + 1)
      ensures disk.world.OneVolume() ==> disk.copies == old(disk.copies)
      ensures disk.tried >= old(disk.tried)
      ensures disk.world.NoFailure(old(disk.tried)) && MayMigrate(setting, jobs, disk.world, old(disk.files)) ==> ok
    {
      ghost var u := disk.Now();
      ok := true;
      assert FitStep(setting, jobs, jobs[n]);
      TrustyItself(setting, jobs, u);
      KeptNothing(u, src, dst);
      if src in disk.files && disk.files[src].Folder? == folder {
        if disk.world.NoFailure(disk.tried) && MayMigrate(setting, jobs, disk.world, u.files) {
          StepMaySucceed(setting, jobs, disk.world, n, disk.tried, u.files);
        }
        ghost var depth := SomeDepth(disk.files, src);
        ok := mover.MoveItem(src, dst, depth);
        assert Under(src, src);
        KeptIsTrusty(setting, jobs, n, u, disk.Now());
      }
      if ok {
        EarlierStayDone(setting, jobs, n, u.files, disk.files);
      }
    }

    method DeleteJob(jobs: seq<Job>, n: nat, src: Path) returns (ok: bool)
      requires disk.Valid() && Planned(setting, jobs) && n < |jobs| && jobs[n] == Delete(src)
      requires !setting.IsCurrent(disk.files) && DoneUpTo(disk.files, jobs, n)
      modifies disk
      ensures disk.Valid() && !setting.IsCurrent(disk.files) && Trusty(setting, jobs, old(disk.Now()), disk.Now())
      ensures AllLessened(old(disk.Now()), disk.Now(), src) && disk.tried >= old(disk.tried)
      ensures StepDid(disk.world, jobs[n], old(disk.files), disk.files, ok)
      ensures ok ==> DoneUpTo(disk.files, jobs, n + 1)
      ensures disk.world.NoFailure(old(disk.tried)) ==> ok
    {
      ghost var u := disk.Now();
      ok := true;
      assert FitStep(setting, jobs, jobs[n]);
      TrustyItself(setting, jobs, u);
      LessenedItself(u.files, src);
      if src in disk.files && disk.files[src].Folder? {
        ghost var depth := SomeDepth(disk.files, src);
        ok := RemoveAll(disk, src, depth);
        assert Under(src, src);
        DeletedIsTrusty(setting, jobs, n, u, disk.Now());
      }
      if ok {
        EarlierStayDone(setting, jobs, n, u.files, disk.files);
      }
    }

    /** The steps from `first` up to `last`, one after another. */
    method RunJobs(jobs: seq<Job>, first: nat, last: nat) returns (ok: bool)
      requires mover.disk == disk && disk.Valid() && Planned(setting, jobs) && !setting.IsCurrent(disk.files)
      requires first <= last <= |jobs| && DoneUpTo(disk.files, jobs, first)
      modifies disk
      ensures disk.Valid() && !setting.IsCurrent(disk.files) && Trusty(setting, jobs, old(disk.Now()), disk.Now())
      ensures ok ==> DoneUpTo(disk.files, jobs, last)
      ensures first >= 1 ==> SameGameFiles(setting, old(disk.files), disk.files)
      ensures (forall i | first <= i < last :: Done(old(disk.files), jobs[i])) ==> disk.files == old(disk.files)
      ensures disk.world.OneVolume() ==> disk.copies == old(disk.copies)
      ensures disk.tried >= old(disk.tried)
      ensures disk.world.NoFailure(old(disk.tried)) && MayMigrate(setting, jobs, disk.world, old(disk.files)) ==> ok
    {
      ghost var u := disk.Now();
      TrustyItself(setting, jobs, u);
      for n := first to last
        invariant disk.Valid() && !setting.IsCurrent(disk.files) && DoneUpTo(disk.files, jobs, n)
        invariant Trusty(setting, jobs, u, disk.Now()) && disk.tried >= old(disk.tried)
        invariant disk.world.OneVolume() ==> disk.copies == old(disk.copies)
        invariant first >= 1 ==> SameGameFiles(setting, u.files, disk.files)
        invariant (forall i | first <= i < last :: Done(u.files, jobs[i])) ==> disk.files == u.files
      {
        ghost var v := disk.files;
        ok := RunNext(jobs, n, u);
        if first >= 1 {
          SameGameFilesOn(setting, u.files, v, disk.files);
        }
        if !ok {
          return;
        }
      }
      ok := true;
    }

    method RunNext(jobs: seq<Job>, n: nat, ghost u: Trace) returns (ok: bool)
      requires mover.disk == disk && disk.Valid() && Planned(setting, jobs) && n < |jobs|
      requires !setting.IsCurrent(disk.files) && DoneUpTo(disk.files, jobs, n) && Trusty(setting, jobs, u, disk.Now())
      modifies disk
      ensures disk.Valid() && !setting.IsCurrent(disk.files) && Trusty(setting, jobs, u, disk.Now())
      ensures ok ==> DoneUpTo(disk.files, jobs, n + 1)
      ensures StepDid(disk.world, jobs[n], old(disk.files), disk.files, ok)
      ensures n >= 1 ==> SameGameFiles(setting, old(disk.files), disk.files)
      ensures disk.world.OneVolume() ==> disk.copies == old(disk.copies)
      ensures disk.tried >= old(disk.tried)
      ensures disk.world.NoFailure(old(disk.tried)) && MayMigrate(setting, jobs, disk.world, u.files) ==> ok
    {
      ghost var v := disk.Now();
      if MayMigrate(setting, jobs, disk.world, u.files) {
        MayGoOn(setting, jobs, disk.world, u.files, v.files);
      }
      ok := RunJob(jobs, n);
      TrustyChain(setting, jobs, u, v, disk.Now());
      if n >= 1 {
        LaterLeavesRecords(setting, jobs, n, v.files, disk.files);
      }
    }

    // ---- Records ---------------------------------------------------------------------

    /** A record that names its old place is written anew beside its name, and takes it. */
    method RewriteRecord(jobs: seq<Job>, k: nat, r: nat, ghost u: Trace) returns (ok: bool)
      requires disk.Valid() && Planned(setting, jobs) && k <= |jobs| && r < |setting.records|
      requires !setting.IsCurrent(disk.files) && DoneUpTo(disk.files, jobs, k) && Trusty(setting, jobs, u, disk.Now())
      modifies disk
      ensures disk.Valid() && !setting.IsCurrent(disk.files) && DoneUpTo(disk.files, jobs, k)
      ensures Trusty(setting, jobs, u, disk.Now()) && disk.copies == old(disk.copies)
      ensures ok ==> RecordWritten(setting, old(disk.files), disk.files, setting.records[r])
      ensures disk.tried >= old(disk.tried)
      ensures disk.world.NoFailure(old(disk.tried)) && PlacesFree(setting, old(disk.files)) ==> ok
    {
      var record, temporary := setting.Record(setting.records[r]), setting.RecordTemp(setting.records[r]);
      if !(record in disk.files && disk.files[record].File?) {
        return true;
      }
      ok := disk.Look();
      if !ok {
        return;
      }
      var rewritten := setting.rewrite(disk.files[record].content);
      if rewritten.Some? {
        ok := PutRecord(jobs, k, r, rewritten.value, u);
      }
    }

    method PutRecord(jobs: seq<Job>, k: nat, r: nat, content: int, ghost u: Trace) returns (ok: bool)
      requires disk.Valid() && Planned(setting, jobs) && k <= |jobs| && r < |setting.records|
      requires IsFile(disk.files, setting.Record(setting.records[r]))
      requires setting.rewrite(disk.files[setting.Record(setting.records[r])].content) == Some(content)
      requires !setting.IsCurrent(disk.files) && DoneUpTo(disk.files, jobs, k) && Trusty(setting, jobs, u, disk.Now())
      modifies disk
      ensures disk.Valid() && !setting.IsCurrent(disk.files) && DoneUpTo(disk.files, jobs, k)
      ensures Trusty(setting, jobs, u, disk.Now()) && disk.copies == old(disk.copies)
      ensures ok ==> RecordWritten(setting, old(disk.files), disk.files, setting.records[r])
      ensures disk.tried >= old(disk.tried)
      ensures disk.world.NoFailure(old(disk.tried)) && PlacesFree(setting, old(disk.files)) ==> ok
    {
      var record, temporary := setting.Record(setting.records[r]), setting.RecordTemp(setting.records[r]);
      ghost var v := disk.Now();
      RecordPlaces(setting, r);
      assert record != [] && Parent(record) == setting.game && Parent(temporary) == setting.game;
      ParentIsThere(disk.files, record);
      ghost var mid: Files;
      ok, mid := disk.WriteFile(temporary, content);
      ScribbledIsOverwritten(setting, v.files, mid, temporary);
      TrustyStep(setting, jobs, k, u, v, mid);
      ScribbledIsOverwritten(setting, mid, disk.files, temporary);
      TrustyStep(setting, jobs, k, u, Stepped(v, mid), disk.files);
      if ok {
        RecordStands(v.files, mid, disk.files, record, temporary);
        ok := RenameRecord(jobs, k, r, content, u);
        if ok {
          OneRecordWritten(setting, v.files, mid, disk.files, setting.records[r], content);
        }
      }
    }

    method RenameRecord(jobs: seq<Job>, k: nat, r: nat, content: int, ghost u: Trace) returns (ok: bool)
      requires disk.Valid() && Planned(setting, jobs) && k <= |jobs| && r < |setting.records|
      requires IsFile(disk.files, setting.Record(setting.records[r])) && Holds(disk.files, setting.RecordTemp(setting.records[r]), content)
      requires setting.Changes(disk.files[setting.Record(setting.records[r])].content)
      requires !setting.IsCurrent(disk.files) && DoneUpTo(disk.files, jobs, k) && Trusty(setting, jobs, u, disk.Now())
      modifies disk
      ensures disk.Valid() && !setting.IsCurrent(disk.files) && DoneUpTo(disk.files, jobs, k)
      ensures Trusty(setting, jobs, u, disk.Now()) && disk.copies == old(disk.copies) && disk.tried >= old(disk.tried)
      ensures var record, temporary := setting.Record(setting.records[r]), setting.RecordTemp(setting.records[r]);
              ok ==> disk.files == (old(disk.files) - {temporary})[record := old(disk.files)[temporary]]
      ensures disk.world.NoFailure(old(disk.tried)) ==> ok
    {
      var record, temporary := setting.Record(setting.records[r]), setting.RecordTemp(setting.records[r]);
      ghost var v := disk.Now();
      RecordPlaces(setting, r);
      assert record != [] && Parent(record) == setting.game && Parent(temporary) == setting.game;
      ParentIsThere(disk.files, record);
      ok := disk.RenameOver(temporary, record);
      if ok {
        RenamedOverIsOverwritten(setting, v.files, disk.files, temporary, record);
      }
      TrustyStep(setting, jobs, k, u, v, disk.files);
    }

    /** Every content record that names its old place. */
    method RewriteRecords(jobs: seq<Job>, k: nat, ghost u: Trace) returns (ok: bool)
      requires disk.Valid() && Planned(setting, jobs) && k <= |jobs|
      requires !setting.IsCurrent(disk.files) && DoneUpTo(disk.files, jobs, k) && Trusty(setting, jobs, u, disk.Now())
      modifies disk
      ensures disk.Valid() && !setting.IsCurrent(disk.files) && DoneUpTo(disk.files, jobs, k)
      ensures Trusty(setting, jobs, u, disk.Now()) && disk.copies == old(disk.copies)
      ensures ok ==> AllFates(setting, old(disk.files), disk.files) && OthersStand(setting, old(disk.files), disk.files)
      ensures disk.tried >= old(disk.tried)
      ensures disk.world.NoFailure(old(disk.tried)) && PlacesFree(setting, u.files) ==> ok
    {
      ok := true;
      for r := 0 to |setting.records|
        invariant disk.Valid() && !setting.IsCurrent(disk.files) && DoneUpTo(disk.files, jobs, k)
        invariant Trusty(setting, jobs, u, disk.Now()) && disk.copies == old(disk.copies) && disk.tried >= old(disk.tried)
        invariant RewrittenUpTo(setting, old(disk.files), disk.files, r)
      {
        ghost var v := disk.files;
        ok := RewriteRecord(jobs, k, r, u);
        if !ok {
          return;
        }
        RewrittenOneMore(setting, old(disk.files), v, disk.files, r);
      }
    }

    // ---- The marker ------------------------------------------------------------------

    /** The marker is written beside its name and takes it last. */
    method WriteMarker(jobs: seq<Job>, ghost u: Trace) returns (ok: bool)
      requires disk.Valid() && Planned(setting, jobs) && setting.current(setting.text)
      requires !setting.IsCurrent(disk.files) && AllDone(disk.files, jobs) && Trusty(setting, jobs, u, disk.Now())
      modifies disk
      ensures disk.Valid() && Trusty(setting, jobs, u, disk.Now()) && AllDone(disk.files, jobs)
      ensures ok == setting.IsCurrent(disk.files) && disk.copies == old(disk.copies)
      ensures OwnAside(setting, old(disk.files), disk.files)
      ensures ok ==> Holds(disk.files, [setting.marker], setting.text) && [setting.temporary] !in disk.files
      ensures disk.world.NoFailure(old(disk.tried)) && PlacesFree(setting, old(disk.files)) ==> ok
    {
      ghost var a := disk.files;
      ok := WriteAside(jobs, u);
      if ok {
        ghost var b := disk.files;
        ok := TakeName(jobs, u);
        OwnAsideOn(setting, a, b, disk.files);
      }
    }

    method WriteAside(jobs: seq<Job>, ghost u: Trace) returns (ok: bool)
      requires disk.Valid() && Planned(setting, jobs)
      requires !setting.IsCurrent(disk.files) && AllDone(disk.files, jobs) && Trusty(setting, jobs, u, disk.Now())
      modifies disk
      ensures disk.Valid() && Trusty(setting, jobs, u, disk.Now()) && AllDone(disk.files, jobs)
      ensures !setting.IsCurrent(disk.files) && disk.copies == old(disk.copies) && disk.tried >= old(disk.tried)
      ensures OwnAside(setting, old(disk.files), disk.files)
      ensures ok ==> Holds(disk.files, [setting.temporary], setting.text)
      ensures PlacesFree(setting, old(disk.files)) ==> PlacesFree(setting, disk.files)
      ensures disk.world.NoFailure(old(disk.tried)) && PlacesFree(setting, old(disk.files)) ==> ok
    {
      var temporary := [setting.temporary];
      ghost var v := disk.Now();
      assert Parent(temporary) == [] && setting.Scratch(temporary);
      ghost var mid: Files;
      ok, mid := disk.WriteFile(temporary, setting.text);
      ScribbledIsOverwritten(setting, v.files, mid, temporary);
      TrustyStep(setting, jobs, |jobs|, u, v, mid);
      ScribbledIsOverwritten(setting, mid, disk.files, temporary);
      TrustyStep(setting, jobs, |jobs|, u, Stepped(v, mid), disk.files);
      ScribbledOwn(setting, v.files, mid, disk.files);
      OverwrittenFollows(setting, jobs, v.files, mid);
      OverwrittenFollows(setting, jobs, mid, disk.files);
    }

    method TakeName(jobs: seq<Job>, ghost u: Trace) returns (ok: bool)
      requires disk.Valid() && Planned(setting, jobs) && setting.current(setting.text)
      requires !setting.IsCurrent(disk.files) && AllDone(disk.files, jobs) && Trusty(setting, jobs, u, disk.Now())
      requires Holds(disk.files, [setting.temporary], setting.text)
      modifies disk
      ensures disk.Valid() && Trusty(setting, jobs, u, disk.Now()) && AllDone(disk.files, jobs)
      ensures ok == setting.IsCurrent(disk.files) && disk.copies == old(disk.copies)
      ensures OwnAside(setting, old(disk.files), disk.files)
      ensures ok ==> Holds(disk.files, [setting.marker], setting.text) && [setting.temporary] !in disk.files
      ensures disk.world.NoFailure(old(disk.tried)) && PlacesFree(setting, old(disk.files)) ==> ok
    {
      var temporary, marker := [setting.temporary], [setting.marker];
      ghost var v := disk.Now();
      assert Parent(temporary) == [] && Parent(marker) == [] && setting.Scratch(temporary) && setting.Scratch(marker);
      ok := disk.RenameOver(temporary, marker);
      if ok {
        RenamedOverIsOverwritten(setting, v.files, disk.files, temporary, marker);
        RenamedOwn(setting, v.files, disk.files);
      }
      TrustyStep(setting, jobs, |jobs|, u, v, disk.files);
    }

    /** The game folder and its records. */
    method FirstStep(jobs: seq<Job>, k: nat) returns (ok: bool, ghost c: Files)
      requires mover.disk == disk && disk.Valid() && Planned(setting, jobs) && !setting.IsCurrent(disk.files)
      requires k == if jobs == [] then 0 else 1
      modifies disk
      ensures disk.Valid() && !setting.IsCurrent(disk.files) && Trusty(setting, jobs, old(disk.Now()), disk.Now())
      ensures ok ==> DoneUpTo(disk.files, jobs, k) && GameStep(disk.world, jobs, old(disk.files), c)
      ensures ok ==> AllFates(setting, c, disk.files) && OthersStand(setting, c, disk.files)
      ensures disk.world.OneVolume() ==> disk.copies == old(disk.copies)
      ensures disk.tried >= old(disk.tried)
      ensures disk.world.NoFailure(old(disk.tried)) && MayMigrate(setting, jobs, disk.world, old(disk.files)) ==> ok
    {
      ghost var u := disk.Now();
      ok := true;
      TrustyItself(setting, jobs, u);
      if jobs != [] {
        ok := RunNext(jobs, 0, u);
      }
      c := disk.files;
      if ok {
        ok := RewriteRecords(jobs, k, u);
      }
    }

    /** Moves everything, rewrites the records and leaves the marker, unless it is there
        already. At every moment, whichever operation fails or is the last, the disk is
        what the sweep leaves or a trusty state of what follows. */
    method Migrate(jobs: seq<Job>) returns (ok: bool, ghost swept: bool, ghost w: Trace, ghost c: Files)
      requires mover.disk == disk && disk.Valid() && Planned(setting, jobs) && setting.current(setting.text)
      modifies disk
      ensures disk.Valid() && ok == setting.IsCurrent(disk.files)
      ensures old(setting.IsCurrent(disk.files)) ==> disk.Now() == old(disk.Now())
      ensures !old(setting.IsCurrent(disk.files)) ==> Migrated(setting, jobs, old(disk.Now()), w, disk.Now(), swept)
      ensures ok && !old(setting.IsCurrent(disk.files)) ==> swept && Ended(setting, jobs, disk.world, w.files, c, disk.files)
      ensures ok && !old(setting.IsCurrent(disk.files)) && setting.RewritesOnce() ==> NoneNamesOldPlace(setting, disk.files)
      ensures disk.world.OneVolume() ==> disk.copies == old(disk.copies)
      ensures disk.world.NoFailure(old(disk.tried)) && MayMigrate(setting, jobs, disk.world, old(disk.files)) ==> ok
    {
      swept, w, c := false, disk.Now(), disk.files;
      ok := [setting.marker] in disk.files && disk.files[[setting.marker]].File?
            && setting.current(disk.files[[setting.marker]].content);
      if ok {
        return;
      }
      ghost var u := disk.Now();
      var clean := RemoveLeftoverCopies(disk, setting.tops);
      swept, w := clean, disk.Now();
      SweptFollows(setting, jobs, u.files, w.files);
      TrustyItself(setting, jobs, w);
      if clean {
        if MayMigrate(setting, jobs, disk.world, u.files) {
          MayGoOn(setting, jobs, disk.world, u.files, w.files);
        }
        ok, c := AfterSweep(jobs);
        if ok && setting.RewritesOnce() {
          RewrittenNameNone(setting, c, disk.files);
        }
      }
    }

    method AfterSweep(jobs: seq<Job>) returns (ok: bool, ghost c: Files)
      requires mover.disk == disk && disk.Valid() && Planned(setting, jobs) && !setting.IsCurrent(disk.files)
      requires setting.current(setting.text)
      modifies disk
      ensures disk.Valid() && Trusty(setting, jobs, old(disk.Now()), disk.Now()) && ok == setting.IsCurrent(disk.files)
      ensures ok ==> Ended(setting, jobs, disk.world, old(disk.files), c, disk.files)
      ensures disk.world.OneVolume() ==> disk.copies == old(disk.copies)
      ensures disk.world.NoFailure(old(disk.tried)) && MayMigrate(setting, jobs, disk.world, old(disk.files)) ==> ok
    {
      ghost var u := disk.Now();
      var k := if jobs == [] then 0 else 1;
      ok, c := FirstStep(jobs, k);
      if !ok {
        return;
      }
      ghost var v := disk.Now();
      if MayMigrate(setting, jobs, disk.world, u.files) {
        MayGoOn(setting, jobs, disk.world, u.files, v.files);
      }
      ok := RunLater(jobs, k, c);
      TrustyChain(setting, jobs, u, v, disk.Now());
      if !ok {
        return;
      }
      ghost var d := disk.files;
      ok := WriteMarker(jobs, u);
      MarkedIsEnded(setting, jobs, disk.world, u.files, c, d, disk.files, ok);
    }

    /** The later steps, which leave the records. */
    method RunLater(jobs: seq<Job>, k: nat, ghost c: Files) returns (ok: bool)
      requires mover.disk == disk && disk.Valid() && Planned(setting, jobs) && !setting.IsCurrent(disk.files)
      requires k == (if jobs == [] then 0 else 1) && DoneUpTo(disk.files, jobs, k)
      requires AllFates(setting, c, disk.files) && OthersStand(setting, c, disk.files)
      modifies disk
      ensures disk.Valid() && !setting.IsCurrent(disk.files) && Trusty(setting, jobs, old(disk.Now()), disk.Now())
      ensures ok ==> AllDone(disk.files, jobs)
      ensures AllFates(setting, c, disk.files) && (LaterDone(c, jobs) ==> OthersStand(setting, c, disk.files))
      ensures disk.world.OneVolume() ==> disk.copies == old(disk.copies)
      ensures disk.tried >= old(disk.tried)
      ensures disk.world.NoFailure(old(disk.tried)) && MayMigrate(setting, jobs, disk.world, old(disk.files)) ==> ok
    {
      ghost var b := disk.files;
      if LaterDone(c, jobs) {
        LaterStayDone(setting, jobs, c, b);
      }
      ok := RunJobs(jobs, k, |jobs|);
      if k == 1 {
        FatesStay(setting, c, b, disk.files);
      }
    }
  }

  lemma MarkedIsEnded(setting: Setting, jobs: seq<Job>, world: World, a: Files, c: Files, d: Files, x: Files, ok: bool)
    requires FitSetting(setting) && GameStep(world, jobs, a, c) && AllFates(setting, c, d) && OwnAside(setting, d, x)
    requires LaterDone(c, jobs) ==> OthersStand(setting, c, d)
    requires ok ==> Holds(x, [setting.marker], setting.text) && [setting.temporary] !in x
    ensures ok ==> Ended(setting, jobs, world, a, c, x)
  {
    OwnIsNoRecord(setting, d, x);
    FatesStay(setting, c, d, x);
    if LaterDone(c, jobs) {
      forall p | !setting.GameFile(p) && !setting.Own(p) ensures SameAt(c, x, p) {
        assert SameAt(c, d, p) && SameAt(d, x, p);
      }
    }
  }

  lemma RecordPlaces(setting: Setting, r: nat)
    requires FitSetting(setting) && r < |setting.records|
    ensures var record, temporary := setting.Record(setting.records[r]), setting.RecordTemp(setting.records[r]);
            setting.IsRecord(record) && setting.Scratch(temporary) && record != temporary
            && !setting.Own(record) && !setting.Own(temporary)
  {
    var name := setting.records[r];
    assert setting.Record(name)[|setting.game|] == name && setting.RecordTemp(name)[|setting.game|] == name + RECORD_MARK;
    assert |name + RECORD_MARK| > |name|;
  }

  /** The record holds what it is rewritten to, and but for its temporary name the rest
      stands; a record that is left is left. */
  ghost predicate RecordWritten(setting: Setting, a: Files, x: Files, name: Name) {
    var record, temporary := setting.Record(name), setting.RecordTemp(name);
    if IsFile(a, record) && setting.Changes(a[record].content) then
      && Holds(x, record, setting.rewrite(a[record].content).value) && temporary !in x
      && forall p {:trigger SameAt(a, x, p)} | p != record && p != temporary :: SameAt(a, x, p)
    else x == a
  }

  lemma RecordStands(a: Files, mid: Files, b: Files, record: Path, temporary: Path)
    requires record != temporary && Scribbled(a, mid, temporary) && Scribbled(mid, b, temporary)
    ensures SameAt(a, b, record)
  {
  }

  lemma OneRecordWritten(setting: Setting, a: Files, mid: Files, x: Files, name: Name, content: int)
    requires var record, temporary := setting.Record(name), setting.RecordTemp(name);
             record != temporary && IsFile(a, record) && setting.rewrite(a[record].content) == Some(content)
             && Scribbled(a, mid, temporary)
             && exists b :: Scribbled(mid, b, temporary) && Holds(b, temporary, content)
                            && x == (b - {temporary})[record := b[temporary]]
    ensures RecordWritten(setting, a, x, name)
  {
    var record, temporary := setting.Record(name), setting.RecordTemp(name);
    var b :| Scribbled(mid, b, temporary) && Holds(b, temporary, content) && x == (b - {temporary})[record := b[temporary]];
    forall p | p != record && p != temporary ensures SameAt(a, x, p) {
    }
  }

  /** A whole run: the sweep, from `u` to `w`, and what follows. */
  ghost predicate Migrated(setting: Setting, jobs: seq<Job>, u: Trace, w: Trace, v: Trace, swept: bool) {
    && SweepRun(u, w, setting.tops) && Trusty(setting, jobs, w, v) && !setting.IsCurrent(w.files)
    && (swept ==> Cleaned(w.files, setting.tops))
    && (!swept ==> v == w)
  }
}
