/** Whole runs of a move: every state passed through and every copy made. */
module LayoutRuns {
  // What a run may lose is what its copies cleared away under temporary names, and a run
  // that goes through loses exactly that.

  import opened Wrappers
  import opened DiskModel
  import opened BesideNames
  import opened TemporaryNames
  import opened LayoutKeeps

  /** A copy to another volume: the disk it began on, and the files it cleared away
      or failed to bring along. */
  datatype Copying = Copying(before: Files, gone: set<Path>)

  /** The disk, every state it passed through, and the copies made. */
  datatype Trace = Trace(files: Files, history: seq<Files>, copies: seq<Copying>)

  /** The disk is the last of its states, and in each everything lies in a folder. */
  ghost predicate Recorded(u: Trace) {
    && WellFormed(u.files) && u.history != [] && u.history[|u.history| - 1] == u.files
    && forall i {:trigger u.history[i]} | 0 <= i < |u.history| :: WellFormed(u.history[i])
  }

  /** One more state. */
  function Stepped(u: Trace, b: Files): Trace {
    Trace(b, u.history + [b], u.copies)
  }

  lemma RecordedOn(u: Trace, b: Files)
    requires Recorded(u) && WellFormed(b)
    ensures Recorded(Stepped(u, b))
  {
  }

  ghost function Also(gone: set<Path>, apart: iset<Path>): iset<Path> {
    iset p | p in gone || p in apart
  }

  /** Whatever a file cleared away held some other file holds. */
  ghost predicate Spared(c: Copying, apart: iset<Path>) {
    forall p {:trigger p in c.gone} | p in c.gone && p in c.before && c.before[p].File? ::
      HasContent(c.before, c.before[p].content, Also(c.gone, apart))
  }

  ghost predicate AllSpared(copies: seq<Copying>, apart: iset<Path>) {
    forall i | 0 <= i < |copies| :: Spared(copies[i], apart)
  }

  /** No copy found a file under a temporary name it used. */
  predicate NoneGone(copies: seq<Copying>) {
    forall i | 0 <= i < |copies| :: copies[i].gone == {}
  }

  /** What is known of a state, and of the copies made around it. */
  ghost predicate StateKept(a: Files, x: Files, copies: seq<Copying>, s: Path, t: Path) {
    && Keeps(a, x, s, t) && StaysPlain(a, x, s, t)
    && (NoneGone(copies) ==> KeepsAll(a, x, s, t))
    && (forall apart {:trigger AllSpared(copies, apart)} | Closed(apart, s, t) && AllSpared(copies, apart) :: Survives(a, x, apart))
  }

  /** A copy began on a disk that still had everything, and cleared away only files
      under temporary names where the move is about. */
  ghost predicate CopyFits(a: Files, c: Copying, s: Path, t: Path) {
    && Keeps(a, c.before, s, t) && Comes(a, c.before, s, t)
    && forall p | p in c.gone :: p in c.before && c.before[p].File? && !Real(p) && InRegion(p, s, t)
  }

  /** What every run keeps, wherever it stops. */
  ghost predicate Kept(u: Trace, v: Trace, s: Path, t: Path) {
    && u.history <= v.history && u.copies <= v.copies
    && StateKept(u.files, v.files, v.copies[|u.copies|..], s, t)
    && (forall i {:trigger v.history[i]} | |u.history| <= i < |v.history| ::
          StateKept(u.files, v.history[i], v.copies[|u.copies|..], s, t))
    && (forall j {:trigger v.copies[j]} | |u.copies| <= j < |v.copies| :: CopyFits(u.files, v.copies[j], s, t))
  }

  /** Nothing is held but what the copy left. */
  ghost predicate OnlyLeft(c: Copying, x: Files) {
    forall q {:trigger q in x} | q in x && x[q].File? :: HasContent(c.before, x[q].content, Also(c.gone, iset{}))
  }

  ghost predicate Finished(h: nat, g: seq<Files>, c: Copying) {
    exists i {:trigger g[i]} :: h <= i < |g| && OnlyLeft(c, g[i])
  }

  /** Every copy of the run was finished, and nothing was made up. */
  ghost predicate Through(u: Trace, v: Trace, s: Path, t: Path) {
    && u.history <= v.history && u.copies <= v.copies && Comes(u.files, v.files, s, t)
    && forall j {:trigger v.copies[j]} | |u.copies| <= j < |v.copies| :: Finished(|u.history|, v.history, v.copies[j])
  }

  // ---- One run after another -----------------------------------------------------------

  lemma StateKeptOn(a: Files, b: Files, x: Files, c1: seq<Copying>, c2: seq<Copying>, s: Path, t: Path)
    requires StateKept(a, b, c1, s, t) && StateKept(b, x, c2, s, t)
    ensures StateKept(a, x, c1 + c2, s, t)
  {
    KeepsOn(a, b, x, s, t);
    StaysPlainOn(a, b, x, s, t);
    SplitCopies(c1, c2);
    if NoneGone(c1 + c2) {
      KeepsAllOn(a, b, x, s, t);
    }
    forall apart | Closed(apart, s, t) && AllSpared(c1 + c2, apart) ensures Survives(a, x, apart) {
      SurvivesOn(a, b, x, apart);
    }
  }

  lemma SplitCopies(c1: seq<Copying>, c2: seq<Copying>)
    ensures NoneGone(c1 + c2) ==> NoneGone(c1) && NoneGone(c2)
    ensures forall apart :: AllSpared(c1 + c2, apart) ==> AllSpared(c1, apart) && AllSpared(c2, apart)
  {
    assert forall i | 0 <= i < |c1| :: (c1 + c2)[i] == c1[i];
    assert forall i | 0 <= i < |c2| :: (c1 + c2)[|c1| + i] == c2[i];
  }

  lemma MoreCopies(a: Files, x: Files, c1: seq<Copying>, c2: seq<Copying>, s: Path, t: Path)
    requires StateKept(a, x, c1, s, t)
    ensures StateKept(a, x, c1 + c2, s, t)
  {
    SplitCopies(c1, c2);
  }

  lemma NewCopies(u: seq<Copying>, v: seq<Copying>, w: seq<Copying>)
    requires u <= v && v <= w
    ensures u <= w && w[|u|..] == v[|u|..] + w[|v|..]
  {
    assert w[..|v|] == v;
    assert w[|u|..] == w[|u|..|v|] + w[|v|..];
    assert w[|u|..|v|] == v[|u|..];
  }

  lemma CopyFitsOn(a: Files, b: Files, c: Copying, s: Path, t: Path)
    requires Keeps(a, b, s, t) && Comes(a, b, s, t) && CopyFits(b, c, s, t)
    ensures CopyFits(a, c, s, t)
  {
    KeepsOn(a, b, c.before, s, t);
    ComesOn(a, b, c.before, s, t);
  }

  lemma KeptChain(u: Trace, v: Trace, w: Trace, s: Path, t: Path)
    requires Kept(u, v, s, t) && Kept(v, w, s, t) && Comes(u.files, v.files, s, t)
    ensures Kept(u, w, s, t)
  {
    var a, b := u.files, v.files;
    var c1, c2 := v.copies[|u.copies|..], w.copies[|v.copies|..];
    NewCopies(u.copies, v.copies, w.copies);
    StateKeptOn(a, b, w.files, c1, c2, s, t);
    forall i | |u.history| <= i < |w.history| ensures StateKept(a, w.history[i], c1 + c2, s, t) {
      if i < |v.history| {
        assert w.history[i] == v.history[i];
        MoreCopies(a, v.history[i], c1, c2, s, t);
      } else {
        StateKeptOn(a, b, w.history[i], c1, c2, s, t);
      }
    }
    forall j | |u.copies| <= j < |w.copies| ensures CopyFits(a, w.copies[j], s, t) {
      if j < |v.copies| {
        assert w.copies[j] == v.copies[j];
      } else {
        CopyFitsOn(a, b, w.copies[j], s, t);
      }
    }
  }

  lemma FinishedLater(h: nat, g: seq<Files>, k: nat, f: seq<Files>, c: Copying)
    requires Finished(h, g, c) && g <= f && k <= h
    ensures Finished(k, f, c)
  {
    var i :| h <= i < |g| && OnlyLeft(c, g[i]);
    assert f[i] == g[i];
  }

  lemma ThroughChain(u: Trace, v: Trace, w: Trace, s: Path, t: Path)
    requires Through(u, v, s, t) && Through(v, w, s, t)
    ensures Through(u, w, s, t)
  {
    ComesOn(u.files, v.files, w.files, s, t);
    forall j | |u.copies| <= j < |w.copies| ensures Finished(|u.history|, w.history, w.copies[j]) {
      if j < |v.copies| {
        assert w.copies[j] == v.copies[j];
        FinishedLater(|u.history|, v.history, |u.history|, w.history, v.copies[j]);
      } else {
        FinishedLater(|v.history|, w.history, |u.history|, w.history, w.copies[j]);
      }
    }
  }

  lemma BothChain(u: Trace, v: Trace, w: Trace, s: Path, t: Path, ok: bool)
    requires Kept(u, v, s, t) && Through(u, v, s, t) && Kept(v, w, s, t) && (ok ==> Through(v, w, s, t))
    ensures Kept(u, w, s, t) && (ok ==> Through(u, w, s, t))
  {
    KeptChain(u, v, w, s, t);
    if ok {
      ThroughChain(u, v, w, s, t);
    }
  }

  // ---- One step ------------------------------------------------------------------------

  lemma KeptNothing(u: Trace, s: Path, t: Path)
    ensures Kept(u, u, s, t) && Through(u, u, s, t)
  {
    KeepsItself(u.files, s, t);
    AllKept(u.files, u.files, [], s, t);
  }

  /** A step that copies nothing. */
  lemma KeptStep(u: Trace, b: Files, s: Path, t: Path)
    requires KeepsAll(u.files, b, s, t) && StaysPlain(u.files, b, s, t)
    ensures Kept(u, Stepped(u, b), s, t)
    ensures Comes(u.files, b, s, t) ==> Through(u, Stepped(u, b), s, t)
  {
    var v := Stepped(u, b);
    AllKept(u.files, b, v.copies[|u.copies|..], s, t);
    assert forall i | |u.history| <= i < |v.history| :: v.history[i] == b;
  }

  lemma AllKept(a: Files, x: Files, copies: seq<Copying>, s: Path, t: Path)
    requires KeepsAll(a, x, s, t) && StaysPlain(a, x, s, t)
    ensures StateKept(a, x, copies, s, t)
  {
    KeepsAllKeeps(a, x, s, t);
    forall apart | Closed(apart, s, t) && AllSpared(copies, apart) ensures Survives(a, x, apart) {
      KeepsAllSurvives(a, x, s, t, apart);
    }
  }

  // ---- A child's run is part of its folder's ---------------------------------------------

  lemma ChildStateKept(a: Files, x: Files, copies: seq<Copying>, src: Path, dst: Path, n: Name)
    requires Apart(src, dst) && dst != [] && IsFolder(a, src) && StateKept(a, x, copies, src + [n], dst + [n])
    ensures StateKept(a, x, copies, src, dst)
  {
    ChildKeeps(a, x, src, dst, n);
    ChildStaysPlain(a, x, src, dst, n);
    if NoneGone(copies) {
      ChildKeepsAll(a, x, src, dst, n);
    }
    forall apart | Closed(apart, src, dst) && AllSpared(copies, apart) ensures Survives(a, x, apart) {
      ChildClosed(apart, src, dst, n);
    }
  }

  lemma ChildClosed(apart: iset<Path>, src: Path, dst: Path, n: Name)
    requires Apart(src, dst) && Closed(apart, src, dst)
    ensures Closed(apart, src + [n], dst + [n])
  {
    forall p, q | p !in apart && MayStand(q, p, src + [n], dst + [n]) ensures q !in apart {
      if InRegion(p, src + [n], dst + [n]) {
        ChildStands(q, p, src, dst, n);
      } else {
        assert q == p;
      }
    }
  }

  lemma ChildCopyFits(a: Files, c: Copying, src: Path, dst: Path, n: Name)
    requires Apart(src, dst) && CopyFits(a, c, src + [n], dst + [n])
    ensures CopyFits(a, c, src, dst)
  {
    ChildKeeps(a, c.before, src, dst, n);
    ChildComes(a, c.before, src, dst, n);
    forall p | p in c.gone ensures InRegion(p, src, dst) {
      ChildRegion(p, src, dst, n);
    }
  }

  lemma ChildKept(u: Trace, v: Trace, src: Path, dst: Path, n: Name)
    requires Apart(src, dst) && dst != [] && IsFolder(u.files, src) && Kept(u, v, src + [n], dst + [n])
    ensures Kept(u, v, src, dst)
    ensures Through(u, v, src + [n], dst + [n]) ==> Through(u, v, src, dst)
  {
    var copies := v.copies[|u.copies|..];
    ChildStateKept(u.files, v.files, copies, src, dst, n);
    forall i | |u.history| <= i < |v.history| ensures StateKept(u.files, v.history[i], copies, src, dst) {
      ChildStateKept(u.files, v.history[i], copies, src, dst, n);
    }
    forall j | |u.copies| <= j < |v.copies| ensures CopyFits(u.files, v.copies[j], src, dst) {
      ChildCopyFits(u.files, v.copies[j], src, dst, n);
    }
    if Through(u, v, src + [n], dst + [n]) {
      ChildComes(u.files, v.files, src, dst, n);
    }
  }

  // ---- What survives a run ----------------------------------------------------------------

  /** A state of the run, `v.files` among them. */
  ghost predicate Passed(u: Trace, v: Trace, x: Files) {
    x == v.files || exists i {:trigger v.history[i]} :: |u.history| <= i < |v.history| && x == v.history[i]
  }

  lemma PassedIsKept(u: Trace, v: Trace, s: Path, t: Path, x: Files)
    requires Kept(u, v, s, t) && Passed(u, v, x)
    ensures StateKept(u.files, x, v.copies[|u.copies|..], s, t)
  {
  }

  /** Whatever step fails or is the last to run: in every state a move passes
      through, what a file held whose name, and the one it goes under, is no temporary
      one some file still holds, where it was, where it was going, or beside that
      place. */
  lemma EveryNamedFileIsHeld(u: Trace, v: Trace, s: Path, t: Path, x: Files, p: Path)
    requires Kept(u, v, s, t) && Passed(u, v, x) && p in u.files && u.files[p].File? && Named(p, s, t)
    ensures Held(x, p, s, t, u.files[p].content)
  {
    PassedIsKept(u, v, s, t, x);
  }

  /** What a copy clears away was there before the move. */
  lemma GoneWasThere(u: Trace, v: Trace, s: Path, t: Path, j: nat, p: Path)
    requires Kept(u, v, s, t) && |u.copies| <= j < |v.copies| && p in v.copies[j].gone
    ensures p in v.copies[j].before && v.copies[j].before[p].File?
    ensures HasContent(u.files, v.copies[j].before[p].content, iset{})
  {
    var c := v.copies[j];
    assert CopyFits(u.files, c, s, t);
    assert Came(u.files, c.before[p].content, p, s, t);
    var r :| Holds(u.files, r, c.before[p].content) && InRegion(r, s, t) && MayStand(p, r, s, t);
  }

  /** No state of the run has lost what some file held, those in `apart` not counted. */
  ghost predicate LosesNothing(u: Trace, v: Trace, apart: iset<Path>) {
    forall x {:trigger Passed(u, v, x)} | Passed(u, v, x) :: Survives(u.files, x, apart)
  }

  lemma SparedLosesNothing(u: Trace, v: Trace, s: Path, t: Path, apart: iset<Path>)
    requires Kept(u, v, s, t) && AllSpared(v.copies[|u.copies|..], apart) && Closed(apart, s, t)
    ensures LosesNothing(u, v, apart)
  {
    forall x | Passed(u, v, x) ensures Survives(u.files, x, apart) {
      PassedIsKept(u, v, s, t, x);
    }
  }

  /** A run that goes through keeps all contents in every state exactly when each of
      its copies found nothing under the temporary names it used, up to other files
      that hold the same. */
  lemma SurvivesIffSpared(u: Trace, v: Trace, s: Path, t: Path)
    requires Kept(u, v, s, t) && Through(u, v, s, t)
    ensures LosesNothing(u, v, iset{}) <==> AllSpared(v.copies[|u.copies|..], iset{})
  {
    if AllSpared(v.copies[|u.copies|..], iset{}) {
      SparedLosesNothing(u, v, s, t, iset{});
    }
    if LosesNothing(u, v, iset{}) {
      forall i | 0 <= i < |v.copies[|u.copies|..]| ensures Spared(v.copies[|u.copies|..][i], iset{}) {
        SurvivorsSpare(u, v, s, t, |u.copies| + i);
      }
    }
  }

  lemma SurvivorsSpare(u: Trace, v: Trace, s: Path, t: Path, j: nat)
    requires Kept(u, v, s, t) && Through(u, v, s, t) && |u.copies| <= j < |v.copies|
    requires LosesNothing(u, v, iset{})
    ensures Spared(v.copies[j], iset{})
  {
    var c := v.copies[j];
    assert Finished(|u.history|, v.history, c);
    var i :| |u.history| <= i < |v.history| && OnlyLeft(c, v.history[i]);
    var x := v.history[i];
    assert Passed(u, v, x) && Survives(u.files, x, iset{});
    forall p | p in c.gone && p in c.before && c.before[p].File?
      ensures HasContent(c.before, c.before[p].content, Also(c.gone, iset{}))
    {
      GoneWasThere(u, v, s, t, j, p);
      var r :| Holds(u.files, r, c.before[p].content);
      assert HasContent(x, u.files[r].content, iset{});
      var q :| Holds(x, q, c.before[p].content);
    }
  }

  // ---- Where nothing is lost ---------------------------------------------------------------

  /** No file the move is about has a temporary name, nor goes under one. */
  ghost predicate AllNamed(a: Files, s: Path, t: Path) {
    forall p {:trigger p in a} | p in a && a[p].File? && InRegion(p, s, t) :: Named(p, s, t)
  }

  lemma NamedSurvive(a: Files, x: Files, s: Path, t: Path)
    requires Keeps(a, x, s, t) && AllNamed(a, s, t)
    ensures KeepsAll(a, x, s, t) && Survives(a, x, iset{})
  {
    forall p | p in a && a[p].File? ensures Held(x, p, s, t, a[p].content) {
      if !InRegion(p, s, t) {
        assert Same(a, x, t, p);
        StaysPut(x, p, s, t, a[p].content);
      }
    }
    KeepsAllSurvives(a, x, s, t, iset{});
  }

  /** Where no file stands under a temporary name no state loses anything. */
  lemma WithoutTemporariesNothingIsLost(u: Trace, v: Trace, s: Path, t: Path, x: Files)
    requires Kept(u, v, s, t) && Passed(u, v, x) && AllNamed(u.files, s, t)
    ensures KeepsAll(u.files, x, s, t) && Survives(u.files, x, iset{})
  {
    PassedIsKept(u, v, s, t, x);
    NamedSurvive(u.files, x, s, t);
  }

  /** Once nothing is left at `s`, what came from it stands at its place in `t` or
      beside it, and what was elsewhere stands where it was or beside that. */
  lemma EveryFileArrives(a: Files, b: Files, s: Path, t: Path, p: Path)
    requires Keeps(a, b, s, t) && NothingIn(b, s) && p in a && a[p].File?
    requires InRegion(p, s, t) ==> Named(p, s, t)
    ensures exists q :: Holds(b, q, a[p].content) && Near(q, if Under(p, s) then t + p[|s|..] else p)
  {
    if InRegion(p, s, t) {
      assert Held(b, p, s, t, a[p].content);
      NearSelf(p);
    } else {
      assert Same(a, b, t, p) && Holds(b, p, a[p].content);
      NearSelf(p);
    }
  }
}
