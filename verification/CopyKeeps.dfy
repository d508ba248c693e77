/** What copying to another volume keeps: in every state everything but what the
    copy cleared away, and at the end nothing else. */
module CopyKeeps {
  import opened Wrappers
  import opened DiskModel
  import opened BesideNames
  import opened TemporaryNames
  import opened FolderWalks
  import opened LayoutKeeps
  import opened LayoutRuns
  import opened Disks
  import opened CopyStates
  import opened LayoutCopy

  /** While `s` moves to `t` it is copied there or, a file, to a name beside. */
  ghost predicate GoesTo(a: Files, s: Path, to: Path, t: Path) {
    to == t || (IsFile(a, s) && Near(to, t))
  }

  /** A copy `s` to `to`, part of moving `s` to `t`. */
  ghost predicate Carries(a: Files, s: Path, to: Path, t: Path) {
    WellFormed(a) && MayCopy(a, s, to) && t != [] && Apart(s, t) && GoesTo(a, s, to, t)
  }

  /** Everything not in `gone` is held where the move may bring it. */
  ghost predicate HeldBut(a: Files, x: Files, gone: set<Path>, s: Path, t: Path) {
    forall p {:trigger p in a} | p in a && a[p].File? && p !in gone :: Held(x, p, s, t, a[p].content)
  }

  lemma HeldButKeeps(a: Files, x: Files, gone: set<Path>, s: Path, t: Path)
    requires forall p {:trigger Same(a, x, t, p)} | !InRegion(p, s, t) :: Same(a, x, t, p)
    requires HeldBut(a, x, gone, s, t) && OnlyLess(a, x, s) && StaysPlain(a, x, s, t)
    requires forall p | p in gone :: p in a && a[p].File? && !Real(p)
    ensures StateKept(a, x, [Copying(a, gone)], s, t)
  {
    var c := Copying(a, gone);
    assert [c][0] == c;
    forall apart | Closed(apart, s, t) && AllSpared([c], apart) ensures Survives(a, x, apart) {
      assert Spared(c, apart);
      HeldButSurvives(a, x, gone, s, t, apart);
    }
  }

  lemma HeldButSurvives(a: Files, x: Files, gone: set<Path>, s: Path, t: Path, apart: iset<Path>)
    requires HeldBut(a, x, gone, s, t) && Spared(Copying(a, gone), apart) && Closed(apart, s, t)
    ensures Survives(a, x, apart)
  {
    forall p | p in a && a[p].File? && p !in apart ensures HasContent(x, a[p].content, apart) {
      var q := p;
      if p in gone {
        assert HasContent(a, a[p].content, Also(gone, apart));
        q :| q !in Also(gone, apart) && Holds(a, q, a[p].content);
      }
      assert Held(x, q, s, t, a[q].content);
      HeldApart(a, x, s, t, q, apart);
    }
  }

  lemma GoneIsTemporary(l: Listing, a: Files, s: Path, to: Path, t: Path)
    requires Carries(a, s, to, t)
    ensures forall p | p in Gone(l, a, s, to) :: p in a && a[p].File? && !Real(p) && InRegion(p, s, t)
  {
    forall p | p in Gone(l, a, s, to) ensures p in a && a[p].File? && !Real(p) && InRegion(p, s, t) {
      if IsFile(a, s) {
        NearSelf(t);
        assert Near(to, t) && p == Temp(to);
      } else {
        ClearedIsTemporary(l, a, p);
      }
    }
  }

  lemma FitsAtFirst(l: Listing, a: Files, s: Path, to: Path, t: Path)
    requires Carries(a, s, to, t)
    ensures CopyFits(a, Copying(a, Gone(l, a, s, to)), s, t)
  {
    KeepsItself(a, s, t);
    GoneIsTemporary(l, a, s, to, t);
  }

  // ---- Places --------------------------------------------------------------------------------

  lemma CopyInRegion(a: Files, x: Files, s: Path, to: Path, t: Path, p: Path)
    requires Carries(a, s, to, t) && !InRegion(p, s, t)
    ensures !Under(p, s) && p != to && p != Temp(to) && (to == t ==> !Under(p, to)) && !(p in a && Under(p, to))
  {
    NearSelf(t);
    assert Near(to, t);
    NothingUnder(a, to);
  }

  /** Only the copy is new at the place. */
  lemma RestOfRegionSame(a: Files, x: Files, s: Path, to: Path, t: Path)
    requires Carries(a, s, to, t) && RestSame(a, x, s, to)
    requires IsFile(a, s) ==> forall q | q in x && Under(q, to) :: q == to
    ensures forall p {:trigger Same(a, x, t, p)} | !InRegion(p, s, t) :: Same(a, x, t, p)
  {
    forall p | !InRegion(p, s, t) ensures Same(a, x, t, p) {
      CopyInRegion(a, x, s, to, t, p);
      if !Under(p, to) {
        assert SameAt(a, x, p);
      }
    }
  }

  // ---- While the copy is under way ---------------------------------------------------------------

  lemma UnderwayHeld(l: Listing, a: Files, x: Files, s: Path, to: Path, t: Path)
    requires Carries(a, s, to, t) && Underway(a, x, s, to)
    ensures HeldBut(a, x, Gone(l, a, s, to), s, t)
  {
    NothingUnder(a, to);
    forall p | p in a && a[p].File? && p !in Gone(l, a, s, to) ensures Held(x, p, s, t, a[p].content) {
      assert SameAt(a, x, p);
      StaysPut(x, p, s, t, a[p].content);
    }
  }

  lemma UnderwayStaysPlain(a: Files, x: Files, s: Path, to: Path, t: Path)
    requires Carries(a, s, to, t) && Underway(a, x, s, to)
    ensures StaysPlain(a, x, s, t)
  {
    forall q | q in x && x[q].Folder?
      ensures IsFolder(a, q) || (Under(t, q) && q != t) || (Under(q, t) && IsFolder(a, s + q[|t|..]))
    {
      if Under(q, to) {
        assert Faithful(a, x, s, to, q);
        FolderOfCopy(a, x, s, to, t, q);
      } else {
        assert Under(q, s) || q != Temp(to) ==> SameAt(a, x, q);
      }
    }
    if Real(t) && IsFolder(a, s) && t in x {
      assert Under(t, t) && Faithful(a, x, s, to, t);
      FolderStaysOne(a, x, s, t);
    }
  }

  /** A folder in the copy is one in the source, which then is a folder. */
  lemma FolderOfCopy(a: Files, x: Files, s: Path, to: Path, t: Path, q: Path)
    requires Carries(a, s, to, t) && IsFolder(x, q) && Under(q, to) && Faithful(a, x, s, to, q)
    ensures Under(q, t) && IsFolder(a, s + q[|t|..])
  {
    var p := Source(q, s, to);
    SourceOf(q, s, to);
    if IsFile(a, s) {
      NothingBelowFile(a, s);
    }
    assert to == t;
  }

  lemma FolderStaysOne(a: Files, x: Files, s: Path, t: Path)
    requires t in x && IsFolder(a, s) && Faithful(a, x, s, t, t)
    ensures !IsFile(x, t)
  {
    assert Source(t, s, t) == s;
  }

  lemma UnderwayKept(l: Listing, a: Files, x: Files, s: Path, to: Path, t: Path)
    requires Carries(a, s, to, t) && Underway(a, x, s, to)
    ensures StateKept(a, x, [Copying(a, Gone(l, a, s, to))], s, t)
  {
    RestOfRegionSame(a, x, s, to, t);
    UnderwayHeld(l, a, x, s, to, t);
    UnderwayStaysPlain(a, x, s, to, t);
    GoneIsTemporary(l, a, s, to, t);
    assert OnlyLess(a, x, s) by {
      forall q | q in x && Under(q, s) ensures q in a && x[q] == a[q] {
        assert SameAt(a, x, q);
      }
    }
    HeldButKeeps(a, x, Gone(l, a, s, to), s, t);
  }

  // ---- Once it is made -----------------------------------------------------------------------------

  lemma OneFileMade(l: Listing, a: Files, x: Files, s: Path, to: Path)
    requires WellFormed(a) && MayCopy(a, s, to) && Made(l, a, x, s, to) && IsFile(a, s)
    ensures forall q | q in x && Under(q, to) :: q == to
  {
    NothingBelowFile(a, s);
    forall q | q in x && Under(q, to) ensures q == to {
      SourceOf(q, s, to);
    }
  }

  lemma BroughtIsHeld(l: Listing, a: Files, x: Files, s: Path, to: Path, t: Path, p: Path)
    requires Carries(a, s, to, t) && Made(l, a, x, s, to) && IsFile(a, p) && Under(p, s) && Brought(l, a, s, p)
    ensures Held(x, p, s, t, a[p].content)
  {
    var q := to + p[|s|..];
    SourceOfMoved(p, s, to);
    assert q in x && Faithful(a, x, s, to, q);
    InsideIsApartFromSource(q, s, to);
    if to == t {
      NearSelf(q);
    } else {
      NothingBelowFile(a, s);
      assert p == s && q == to && t + p[|s|..] == t;
    }
    assert Holds(x, q, a[p].content) && MayStand(q, p, s, t);
  }

  lemma InsideIsApartFromSource(q: Path, s: Path, to: Path)
    requires Apart(s, to) && Under(q, to)
    ensures !Under(q, s)
  {
    if Under(q, s) {
      BothPrefixes(q, s, to);
    }
  }

  lemma MadeHeld(l: Listing, a: Files, x: Files, s: Path, to: Path, t: Path)
    requires Carries(a, s, to, t) && Made(l, a, x, s, to)
    ensures HeldBut(a, x, Gone(l, a, s, to), s, t)
  {
    NothingUnder(a, to);
    forall p | p in a && a[p].File? && p !in Gone(l, a, s, to) ensures Held(x, p, s, t, a[p].content) {
      if Under(p, s) {
        if IsFile(a, s) {
          NothingBelowFile(a, s);
        }
        BroughtIsHeld(l, a, x, s, to, t, p);
      } else {
        assert SameAt(a, x, p);
        StaysPut(x, p, s, t, a[p].content);
      }
    }
  }

  lemma MadeStaysPlain(l: Listing, a: Files, x: Files, s: Path, to: Path, t: Path)
    requires Carries(a, s, to, t) && Made(l, a, x, s, to)
    ensures StaysPlain(a, x, s, t)
  {
    forall q | q in x && x[q].Folder?
      ensures IsFolder(a, q) || (Under(t, q) && q != t) || (Under(q, t) && IsFolder(a, s + q[|t|..]))
    {
      if Under(q, to) {
        assert Faithful(a, x, s, to, q);
        FolderOfCopy(a, x, s, to, t, q);
      } else {
        assert !Under(q, s) && q != Temp(to) ==> SameAt(a, x, q);
      }
    }
    if IsFolder(a, s) && t in x {
      assert Under(t, t) && Faithful(a, x, s, to, t);
      FolderStaysOne(a, x, s, t);
    }
  }

  lemma MadeKept(l: Listing, a: Files, x: Files, s: Path, to: Path, t: Path)
    requires Carries(a, s, to, t) && Made(l, a, x, s, to)
    ensures StateKept(a, x, [Copying(a, Gone(l, a, s, to))], s, t)
  {
    if IsFile(a, s) {
      OneFileMade(l, a, x, s, to);
    }
    RestOfRegionSame(a, x, s, to, t);
    MadeHeld(l, a, x, s, to, t);
    MadeStaysPlain(l, a, x, s, to, t);
    GoneIsTemporary(l, a, s, to, t);
    HeldButKeeps(a, x, Gone(l, a, s, to), s, t);
  }

  lemma MadeComes(l: Listing, a: Files, x: Files, s: Path, to: Path, t: Path)
    requires Carries(a, s, to, t) && Made(l, a, x, s, to)
    ensures Comes(a, x, s, t)
  {
    forall q | q in x && x[q].File? && InRegion(q, s, t) ensures Came(a, x[q].content, q, s, t) {
      if Under(q, to) {
        SourceOf(q, s, to);
        var p := Source(q, s, to);
        assert Faithful(a, x, s, to, q);
        CameFromSource(a, x, s, to, t, q, p);
      } else {
        assert !Under(q, s) && q != Temp(to) ==> SameAt(a, x, q);
        CameItself(a, x[q].content, q, s, t);
      }
    }
  }

  lemma CameFromSource(a: Files, x: Files, s: Path, to: Path, t: Path, q: Path, p: Path)
    requires Carries(a, s, to, t) && q in x && x[q].File? && Under(q, to) && p == Source(q, s, to) && Under(p, s)
    requires Faithful(a, x, s, to, q)
    ensures Came(a, x[q].content, q, s, t)
  {
    InsideIsApartFromSource(q, s, to);
    assert q == to + p[|s|..];
    if to == t {
      NearSelf(q);
    } else {
      NothingBelowFile(a, s);
      assert p == s && q == to && t + p[|s|..] == t;
    }
    assert Holds(a, p, x[q].content) && InRegion(p, s, t) && MayStand(q, p, s, t);
  }

  /** With the source deleted nothing is held but what the copy left. */
  lemma MadeLeaves(l: Listing, a: Files, x: Files, s: Path, to: Path, t: Path)
    requires Carries(a, s, to, t) && Made(l, a, x, s, to) && NothingIn(x, s)
    ensures OnlyLeft(Copying(a, Gone(l, a, s, to)), x)
  {
    var gone := Gone(l, a, s, to);
    TempIsNotSource(a, s, to);
    forall q | q in x && x[q].File? ensures HasContent(a, x[q].content, Also(gone, iset{})) {
      if Under(q, to) {
        SourceOf(q, s, to);
        var p := Source(q, s, to);
        assert Faithful(a, x, s, to, q) && Brought(l, a, s, p);
        assert p !in gone;
        assert Holds(a, p, x[q].content);
      } else {
        assert SameAt(a, x, q);
        assert q !in gone;
        assert Holds(a, q, x[q].content);
      }
    }
  }

  // ---- The whole of it --------------------------------------------------------------------------------

  lemma CopyKept(l: Listing, u: Trace, v: Trace, s: Path, to: Path, t: Path, m: nat)
    requires Carries(u.files, s, to, t) && CopiedThenDeleted(l, u, v, s, to, m)
    ensures Kept(u, v, s, t)
  {
    var a, c := u.files, Copying(u.files, Gone(l, u.files, s, to));
    assert v.copies[|u.copies|..] == [c];
    forall i | |u.history| <= i < |v.history| ensures StateKept(a, v.history[i], [c], s, t) {
      if i < m {
        UnderwayKept(l, a, v.history[i], s, to, t);
      } else {
        MadeKept(l, a, v.history[i], s, to, t);
      }
    }
    if Underway(a, v.files, s, to) {
      UnderwayKept(l, a, v.files, s, to, t);
    } else {
      MadeKept(l, a, v.files, s, to, t);
    }
    FitsAtFirst(l, a, s, to, t);
  }

  lemma GrownIfChanged(u: Trace, v: Trace)
    requires Recorded(u) && Recorded(v) && u.history <= v.history && u.files != v.files
    ensures |u.history| < |v.history|
  {
    assert u.history == v.history[..|u.history|];
  }

  lemma CopyThrough(l: Listing, u: Trace, v: Trace, s: Path, to: Path, t: Path, m: nat)
    requires Carries(u.files, s, to, t) && CopiedThenDeleted(l, u, v, s, to, m)
    requires Made(l, u.files, v.files, s, to) && NothingIn(v.files, s)
    requires Recorded(u) && Recorded(v)
    ensures Through(u, v, s, t)
  {
    MadeComes(l, u.files, v.files, s, to, t);
    MadeLeaves(l, u.files, v.files, s, to, t);
    assert Under(s, s);
    GrownIfChanged(u, v);
    FinishedIsThrough(u, v, Copying(u.files, Gone(l, u.files, s, to)), s, t);
  }

  lemma FinishedIsThrough(u: Trace, v: Trace, c: Copying, s: Path, t: Path)
    requires u.history <= v.history && |u.history| < |v.history| && v.copies == u.copies + [c]
    requires Recorded(v) && OnlyLeft(c, v.files) && Comes(u.files, v.files, s, t)
    ensures Through(u, v, s, t)
  {
    assert OnlyLeft(c, v.history[|v.history| - 1]);
    assert Finished(|u.history|, v.history, c);
  }
}
