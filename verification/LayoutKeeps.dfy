/** What every step of a move keeps: nothing elsewhere changes, and what each file
    held is still held at the place it comes from, at the place it goes to, or
    beside that place. Files take names beside names, so "beside" is closed under
    stepping aside again; folders on the way to the new place may appear. Files under
    temporary names are the ones a copy may clear away, so they are promised less. */
module LayoutKeeps {
  import opened Wrappers
  import opened DiskModel
  import opened BesideNames
  import opened TemporaryNames

  ghost predicate NothingIn(files: Files, top: Path) {
    forall p {:trigger p in files} | p in files :: !Under(p, top)
  }

  ghost predicate TempNear(p: Path, t: Path) {
    exists x :: Near(x, t) && x != [] && p == Temp(x)
  }

  /** What moving `s` to `t` may touch: both, the names beside `t`, and the
      temporary names of those. */
  ghost predicate InRegion(p: Path, s: Path, t: Path) {
    Under(p, s) || Under(p, t) || Near(p, t) || TempNear(p, t)
  }

  /** Where the contents of the file `p` may stand while `s` moves to `t`: where it
      was; one from `s` at its place in `t` or beside that; one at `t` beside it. */
  ghost predicate MayStand(q: Path, p: Path, s: Path, t: Path) {
    || q == p
    || (!Under(q, s) && Under(p, s) && Near(q, t + p[|s|..]))
    || (!Under(q, s) && !Under(p, s) && (Under(p, t) || Near(p, t)) && Near(q, p))
  }

  predicate Holds(files: Files, q: Path, content: int) {
    q in files && files[q].File? && files[q].content == content
  }

  ghost predicate Held(files: Files, p: Path, s: Path, t: Path, content: int) {
    exists q :: Holds(files, q, content) && MayStand(q, p, s, t)
  }

  /** Nothing at `p` changed, but that a folder on the way to `t` may be new. */
  predicate Same(a: Files, b: Files, t: Path, p: Path) {
    if p in a then p in b && b[p] == a[p] else p in b ==> b[p].Folder? && Under(t, p)
  }

  /** Neither the file's name nor the name it goes under is a temporary one. */
  predicate Named(p: Path, s: Path, t: Path) {
    Real(p) && (p == s ==> Real(t))
  }

  predicate OnlyLess(a: Files, b: Files, s: Path) {
    forall q {:trigger q in b} | q in b && Under(q, s) :: q in a && b[q] == a[q]
  }

  /** What holds of every state a move passes through, whatever is copied. */
  ghost predicate Keeps(a: Files, b: Files, s: Path, t: Path) {
    && (forall p {:trigger Same(a, b, t, p)} | !InRegion(p, s, t) :: Same(a, b, t, p))
    && (forall p {:trigger p in a} | p in a && a[p].File? && Named(p, s, t) :: Held(b, p, s, t, a[p].content))
    && OnlyLess(a, b, s)
  }

  /** The same of every file: what holds while no temporary name is taken. */
  ghost predicate KeepsAll(a: Files, b: Files, s: Path, t: Path) {
    && (forall p {:trigger Same(a, b, t, p)} | !InRegion(p, s, t) :: Same(a, b, t, p))
    && (forall p {:trigger p in a} | p in a && a[p].File? :: Held(b, p, s, t, a[p].content))
    && OnlyLess(a, b, s)
  }

  /** Some file holds it, other than those in `apart`. */
  ghost predicate HasContent(files: Files, content: int, apart: iset<Path>) {
    exists q :: q !in apart && Holds(files, q, content)
  }

  /** Whatever a file held some file holds, wherever it stands, those in `apart` not
      counted. */
  ghost predicate Survives(a: Files, b: Files, apart: iset<Path>) {
    forall p {:trigger p in a} | p in a && a[p].File? && p !in apart :: HasContent(b, a[p].content, apart)
  }

  /** Nothing else comes to stand where these may. */
  ghost predicate Closed(apart: iset<Path>, s: Path, t: Path) {
    forall p, q {:trigger MayStand(q, p, s, t)} | p !in apart && MayStand(q, p, s, t) :: q !in apart
  }

  /** The move is not about any of these. */
  ghost predicate Outside(apart: iset<Path>, s: Path, t: Path) {
    forall p {:trigger p in apart} | p in apart :: !InRegion(p, s, t)
  }

  /** Every file holds what some file held that may have come to stand there. */
  ghost predicate Comes(a: Files, b: Files, s: Path, t: Path) {
    forall q {:trigger q in b} | q in b && b[q].File? && InRegion(q, s, t) :: Came(a, b[q].content, q, s, t)
  }

  ghost predicate Came(a: Files, content: int, q: Path, s: Path, t: Path) {
    exists p :: Holds(a, p, content) && InRegion(p, s, t) && MayStand(q, p, s, t)
  }

  lemma KeepsAllKeeps(a: Files, b: Files, s: Path, t: Path)
    requires KeepsAll(a, b, s, t)
    ensures Keeps(a, b, s, t)
  {
  }

  /** What is held where the move may bring it is not held apart from the move. */
  lemma HeldApart(a: Files, b: Files, s: Path, t: Path, p: Path, apart: iset<Path>)
    requires p in a && a[p].File? && Held(b, p, s, t, a[p].content) && Closed(apart, s, t) && p !in apart
    ensures HasContent(b, a[p].content, apart)
  {
    var q :| Holds(b, q, a[p].content) && MayStand(q, p, s, t);
  }

  lemma OutsideIsClosed(apart: iset<Path>, s: Path, t: Path)
    requires Outside(apart, s, t)
    ensures Closed(apart, s, t)
  {
    forall p, q | p !in apart && MayStand(q, p, s, t) ensures q !in apart {
      if InRegion(p, s, t) {
        StandsInRegion(q, p, s, t);
      } else {
        assert q == p;
      }
    }
  }

  lemma KeepsAllSurvives(a: Files, b: Files, s: Path, t: Path, apart: iset<Path>)
    requires KeepsAll(a, b, s, t) && Closed(apart, s, t)
    ensures Survives(a, b, apart)
  {
    forall p | p in a && a[p].File? && p !in apart ensures HasContent(b, a[p].content, apart) {
      assert Held(b, p, s, t, a[p].content);
      HeldApart(a, b, s, t, p, apart);
    }
  }

  // ---- Folders -----------------------------------------------------------------------

  /** No folder has a temporary name. */
  ghost predicate PlainFolders(files: Files) {
    forall q {:trigger q in files} | q in files && files[q].Folder? :: Real(q)
  }

  predicate PlainPath(p: Path) {
    forall n | n in p :: !IsTemporary(n)
  }

  /** Making the way to `t`, and a folder there, makes no such folder. */
  predicate PlainTarget(a: Files, s: Path, t: Path) {
    t != [] && PlainPath(Parent(t)) && (IsFolder(a, s) ==> Real(t))
  }

  /** A folder was a folder before, comes from `s`, or is new on the way. */
  ghost predicate FoldersCome(a: Files, b: Files, s: Path, t: Path) {
    forall q {:trigger q in b} | q in b && b[q].Folder? ::
      || IsFolder(a, q)
      || (Under(t, q) && q != t)
      || (Under(q, t) && IsFolder(a, s + q[|t|..]))
  }

  /** So it is with every folder, and where a folder goes no file comes to stand. */
  ghost predicate StaysPlain(a: Files, b: Files, s: Path, t: Path) {
    FoldersCome(a, b, s, t) && (Real(t) && !IsFile(a, s) && !IsFile(a, t) ==> !IsFile(b, t))
  }

  /** No folder gets a temporary name. */
  lemma PlainStays(a: Files, b: Files, s: Path, t: Path)
    requires FoldersCome(a, b, s, t) && PlainFolders(a) && PlainTarget(a, s, t)
    ensures PlainFolders(b)
  {
    forall q | q in b && b[q].Folder? ensures Real(q) {
      if Under(t, q) && q != t && q != [] {
        PrefixIs(t, q);
        assert q[|q| - 1] == Parent(t)[|q| - 1];
      } else if !IsFolder(a, q) && q != [] && q != t {
        PrefixIs(q, t);
        var p := s + q[|t|..];
        assert p[|p| - 1] == q[|q| - 1];
      } else if q == t && !IsFolder(a, q) {
        assert s + q[|t|..] == s;
      }
    }
  }

  lemma StaysPlainOn(a: Files, b: Files, c: Files, s: Path, t: Path)
    requires OnlyLess(a, b, s) && StaysPlain(a, b, s, t) && StaysPlain(b, c, s, t)
    ensures StaysPlain(a, c, s, t)
  {
    assert s in b && Under(s, s) ==> s in a && b[s] == a[s];
  }

  // ---- Prefixes -------------------------------------------------------------------

  lemma BothPrefixes(q: Path, a: Path, b: Path)
    requires Under(q, a) && Under(q, b)
    ensures Under(a, b) || Under(b, a)
  {
    if |a| <= |b| {
      assert b[..|a|] == q[..|a|] == a;
    } else {
      assert a[..|b|] == q[..|b|] == b;
    }
  }

  /** What lies in `src` is not in `dst`, nor on the way to it. */
  lemma InsideIsApart(p: Path, src: Path, dst: Path)
    requires Apart(src, dst) && Under(p, src)
    ensures !Under(p, dst) && !Under(dst, p)
  {
    if Under(p, dst) {
      BothPrefixes(p, src, dst);
    }
    if Under(dst, p) {
      PrefixChain(src, p, dst);
    }
  }

  /** What stands beside something in a folder is in that folder. */
  lemma NearIsInside(q: Path, p: Path, top: Path)
    requires Near(q, p) && Under(p, top) && p != top
    ensures Under(q, top)
  {
    NearIsSibling(q, p);
    assert Under(Parent(p), top) by {
      assert Parent(p)[..|top|] == p[..|top|];
    }
    assert Under(q, Parent(q));
    PrefixChain(top, Parent(q), q);
  }

  /** A path on the way to a child is the child or on the way to its folder. */
  lemma WayToChild(p: Path, dst: Path, n: Name)
    requires Under(dst + [n], p)
    ensures p == dst + [n] || Under(dst, p)
  {
    if |p| <= |dst| {
      assert p == (dst + [n])[..|p|] == dst[..|p|];
    } else {
      assert p == (dst + [n])[..|p|];
    }
  }

  // ---- One step after another --------------------------------------------------------

  lemma StaysPut(b: Files, p: Path, s: Path, t: Path, content: int)
    requires Holds(b, p, content)
    ensures Held(b, p, s, t, content)
  {
    NearSelf(p);
    assert MayStand(p, p, s, t);
  }

  lemma CameItself(a: Files, content: int, q: Path, s: Path, t: Path)
    requires Holds(a, q, content) && InRegion(q, s, t)
    ensures Came(a, content, q, s, t)
  {
    NearSelf(q);
    assert MayStand(q, q, s, t);
  }

  lemma KeepsItself(a: Files, s: Path, t: Path)
    ensures KeepsAll(a, a, s, t) && Comes(a, a, s, t) && StaysPlain(a, a, s, t)
  {
    forall p | p in a && a[p].File? ensures Held(a, p, s, t, a[p].content) {
      StaysPut(a, p, s, t, a[p].content);
    }
    forall q | q in a && a[q].File? && InRegion(q, s, t) ensures Came(a, a[q].content, q, s, t) {
      CameItself(a, a[q].content, q, s, t);
    }
  }

  /** What the move is about stays where it is about. */
  lemma StandsInRegion(q: Path, p: Path, s: Path, t: Path)
    requires MayStand(q, p, s, t) && InRegion(p, s, t)
    ensures InRegion(q, s, t)
  {
    if q != p {
      var target := if Under(p, s) then t + p[|s|..] else p;
      if Under(p, s) {
        assert Under(target, t);
        if target == t {
          assert Near(q, t);
        } else {
          NearIsInside(q, target, t);
        }
      } else if Near(p, t) {
        NearOn(q, p, t);
      } else {
        NearSelf(t);
        NearIsInside(q, p, t);
      }
    }
  }

  lemma StandsOn(r: Path, q: Path, p: Path, s: Path, t: Path)
    requires MayStand(q, p, s, t) && MayStand(r, q, s, t)
    ensures MayStand(r, p, s, t)
  {
    if q != p && r != q {
      NearOn(r, q, if Under(p, s) then t + p[|s|..] else p);
    }
  }

  /** What is named stays named. */
  lemma StandsNamed(q: Path, p: Path, s: Path, t: Path)
    requires MayStand(q, p, s, t) && Named(p, s, t)
    ensures Named(q, s, t)
  {
    if q != p {
      var target := if Under(p, s) then t + p[|s|..] else p;
      if Under(p, s) && p != s {
        assert target[|target| - 1] == p[|p| - 1];
      } else if p == s {
        assert target == t;
      }
      NearIsReal(q, target);
    }
  }

  lemma HeldOn(b: Files, c: Files, p: Path, s: Path, t: Path, content: int, q: Path)
    requires MayStand(q, p, s, t) && Held(c, q, s, t, content)
    ensures Held(c, p, s, t, content)
  {
    var r :| Holds(c, r, content) && MayStand(r, q, s, t);
    StandsOn(r, q, p, s, t);
  }

  lemma KeepsOn(a: Files, b: Files, c: Files, s: Path, t: Path)
    requires Keeps(a, b, s, t) && Keeps(b, c, s, t)
    ensures Keeps(a, c, s, t)
  {
    forall p | !InRegion(p, s, t) ensures Same(a, c, t, p) {
      assert Same(a, b, t, p) && Same(b, c, t, p);
    }
    forall p | p in a && a[p].File? && Named(p, s, t) ensures Held(c, p, s, t, a[p].content) {
      assert Held(b, p, s, t, a[p].content);
      var q :| Holds(b, q, a[p].content) && MayStand(q, p, s, t);
      StandsNamed(q, p, s, t);
      HeldOn(b, c, p, s, t, a[p].content, q);
    }
  }

  lemma KeepsAllOn(a: Files, b: Files, c: Files, s: Path, t: Path)
    requires KeepsAll(a, b, s, t) && KeepsAll(b, c, s, t)
    ensures KeepsAll(a, c, s, t)
  {
    forall p | !InRegion(p, s, t) ensures Same(a, c, t, p) {
      assert Same(a, b, t, p) && Same(b, c, t, p);
    }
    forall p | p in a && a[p].File? ensures Held(c, p, s, t, a[p].content) {
      assert Held(b, p, s, t, a[p].content);
      var q :| Holds(b, q, a[p].content) && MayStand(q, p, s, t);
      HeldOn(b, c, p, s, t, a[p].content, q);
    }
  }

  lemma SurvivesOn(a: Files, b: Files, c: Files, apart: iset<Path>)
    requires Survives(a, b, apart) && Survives(b, c, apart)
    ensures Survives(a, c, apart)
  {
    forall p | p in a && a[p].File? && p !in apart ensures HasContent(c, a[p].content, apart) {
      assert HasContent(b, a[p].content, apart);
      var q :| q !in apart && Holds(b, q, a[p].content);
    }
  }

  lemma CameOn(a: Files, b: Files, content: int, q: Path, r: Path, s: Path, t: Path)
    requires Comes(a, b, s, t) && Holds(b, q, content) && InRegion(q, s, t) && MayStand(r, q, s, t)
    ensures Came(a, content, r, s, t)
  {
    assert Came(a, content, q, s, t);
    var p :| Holds(a, p, content) && InRegion(p, s, t) && MayStand(q, p, s, t);
    StandsOn(r, q, p, s, t);
  }

  lemma ComesOn(a: Files, b: Files, c: Files, s: Path, t: Path)
    requires Comes(a, b, s, t) && Comes(b, c, s, t)
    ensures Comes(a, c, s, t)
  {
    forall r | r in c && c[r].File? && InRegion(r, s, t) ensures Came(a, c[r].content, r, s, t) {
      assert Came(b, c[r].content, r, s, t);
      var q :| Holds(b, q, c[r].content) && InRegion(q, s, t) && MayStand(r, q, s, t);
      CameOn(a, b, c[r].content, q, r, s, t);
    }
  }

  // ---- A child moved is part of its folder moved ------------------------------------------

  /** What moving a child may touch lies in the child or in the folder it goes to. */
  lemma ChildRegion(p: Path, src: Path, dst: Path, n: Name)
    requires InRegion(p, src + [n], dst + [n])
    ensures Under(p, src + [n]) || (Under(p, dst) && |p| > |dst|)
    ensures InRegion(p, src, dst)
  {
    var into := dst + [n];
    assert Under(src + [n], src) && Under(into, dst) && Parent(into) == dst;
    if Under(p, src + [n]) {
      PrefixChain(src, src + [n], p);
    } else if Under(p, into) {
      PrefixChain(dst, into, p);
    } else if Near(p, into) {
      NearIsSibling(p, into);
      assert Under(p, Parent(p));
    } else {
      var x :| Near(x, into) && x != [] && p == Temp(x);
      NearIsSibling(x, into);
      assert Under(p, Parent(p));
    }
  }

  /** What goes with its folder goes with the child it is in. */
  lemma ChildPlace(p: Path, src: Path, dst: Path, n: Name)
    requires Under(p, src + [n])
    ensures Under(p, src) && dst + [n] + p[|src + [n]|..] == dst + p[|src|..]
    ensures Under(dst + p[|src|..], dst) && dst + p[|src|..] != dst
  {
    assert Under(src + [n], src);
    PrefixChain(src, src + [n], p);
    assert p[|src|..] == [n] + p[|src + [n]|..];
  }

  lemma ChildStands(q: Path, p: Path, src: Path, dst: Path, n: Name)
    requires Apart(src, dst) && InRegion(p, src + [n], dst + [n]) && MayStand(q, p, src + [n], dst + [n])
    ensures MayStand(q, p, src, dst)
  {
    if q == p {
      NearSelf(p);
    } else if Under(p, src + [n]) {
      ChildPlace(p, src, dst, n);
      NearIsInside(q, dst + p[|src|..], dst);
      if Under(q, src) {
        InsideIsApart(q, src, dst);
      }
    } else {
      ChildRegion(p, src, dst, n);
      NearIsInside(q, p, dst);
      if Under(q, src) {
        InsideIsApart(q, src, dst);
      }
      if Under(p, src) {
        InsideIsApart(p, src, dst);
      }
    }
  }

  /** Outside what its move may touch a child's folder is as it was. */
  lemma ChildSame(a: Files, b: Files, src: Path, dst: Path, n: Name, p: Path)
    requires Apart(src, dst) && !InRegion(p, src + [n], dst + [n]) && Same(a, b, dst + [n], p)
    ensures !InRegion(p, src, dst) ==> Same(a, b, dst, p)
    ensures p in b && p !in a ==> b[p].Folder? && (p == dst || Under(dst, p))
  {
    if Under(dst + [n], p) {
      WayToChild(p, dst, n);
      assert Under(dst + [n], dst + [n]);
    }
  }

  lemma ChildLess(a: Files, b: Files, src: Path, dst: Path, n: Name)
    requires Apart(src, dst) && OnlyLess(a, b, src + [n])
    requires forall p {:trigger Same(a, b, dst + [n], p)} | !InRegion(p, src + [n], dst + [n]) :: Same(a, b, dst + [n], p)
    ensures OnlyLess(a, b, src)
  {
    forall q | q in b && Under(q, src) ensures q in a && b[q] == a[q] {
      InsideIsApart(q, src, dst);
      if !Under(q, src + [n]) {
        if InRegion(q, src + [n], dst + [n]) {
          ChildRegion(q, src, dst, n);
        }
        assert Same(a, b, dst + [n], q);
        ChildSame(a, b, src, dst, n, q);
        assert Under(dst, dst);
      }
    }
  }

  lemma ChildHeld(a: Files, b: Files, src: Path, dst: Path, n: Name, p: Path)
    requires Apart(src, dst) && p in a && a[p].File?
    requires if InRegion(p, src + [n], dst + [n]) then Held(b, p, src + [n], dst + [n], a[p].content)
             else Same(a, b, dst + [n], p)
    ensures Held(b, p, src, dst, a[p].content)
  {
    if InRegion(p, src + [n], dst + [n]) {
      var q :| Holds(b, q, a[p].content) && MayStand(q, p, src + [n], dst + [n]);
      ChildStands(q, p, src, dst, n);
    } else {
      StaysPut(b, p, src, dst, a[p].content);
    }
  }

  lemma ChildKeeps(a: Files, b: Files, src: Path, dst: Path, n: Name)
    requires Apart(src, dst) && Keeps(a, b, src + [n], dst + [n])
    ensures Keeps(a, b, src, dst)
  {
    ChildLess(a, b, src, dst, n);
    forall p | !InRegion(p, src, dst) ensures Same(a, b, dst, p) {
      if InRegion(p, src + [n], dst + [n]) {
        ChildRegion(p, src, dst, n);
      }
      ChildSame(a, b, src, dst, n, p);
    }
    forall p | p in a && a[p].File? && Named(p, src, dst) ensures Held(b, p, src, dst, a[p].content) {
      assert Named(p, src + [n], dst + [n]) by {
        assert (dst + [n])[|dst|] == n && (src + [n])[|src|] == n;
      }
      assert !InRegion(p, src + [n], dst + [n]) ==> Same(a, b, dst + [n], p);
      ChildHeld(a, b, src, dst, n, p);
    }
  }

  lemma ChildKeepsAll(a: Files, b: Files, src: Path, dst: Path, n: Name)
    requires Apart(src, dst) && KeepsAll(a, b, src + [n], dst + [n])
    ensures KeepsAll(a, b, src, dst)
  {
    ChildLess(a, b, src, dst, n);
    forall p | !InRegion(p, src, dst) ensures Same(a, b, dst, p) {
      if InRegion(p, src + [n], dst + [n]) {
        ChildRegion(p, src, dst, n);
      }
      ChildSame(a, b, src, dst, n, p);
    }
    forall p | p in a && a[p].File? ensures Held(b, p, src, dst, a[p].content) {
      assert !InRegion(p, src + [n], dst + [n]) ==> Same(a, b, dst + [n], p);
      ChildHeld(a, b, src, dst, n, p);
    }
  }

  lemma ChildComes(a: Files, b: Files, src: Path, dst: Path, n: Name)
    requires Apart(src, dst) && Keeps(a, b, src + [n], dst + [n]) && Comes(a, b, src + [n], dst + [n])
    ensures Comes(a, b, src, dst)
  {
    forall q | q in b && b[q].File? && InRegion(q, src, dst) ensures Came(a, b[q].content, q, src, dst) {
      if InRegion(q, src + [n], dst + [n]) {
        assert Came(a, b[q].content, q, src + [n], dst + [n]);
        var p :| Holds(a, p, b[q].content) && InRegion(p, src + [n], dst + [n]) && MayStand(q, p, src + [n], dst + [n]);
        ChildRegion(p, src, dst, n);
        ChildStands(q, p, src, dst, n);
      } else {
        assert Same(a, b, dst + [n], q);
        CameItself(a, b[q].content, q, src, dst);
      }
    }
  }

  /** Moving a child does not touch the folder it goes to. */
  lemma FolderIsOutside(src: Path, dst: Path, n: Name)
    requires Apart(src, dst)
    ensures !InRegion(dst, src + [n], dst + [n])
  {
    assert Under(src + [n], src);
    if InRegion(dst, src + [n], dst + [n]) {
      ChildRegion(dst, src, dst, n);
      PrefixChain(src, src + [n], dst);
    }
  }

  /** A folder's own name is plain when none in it is temporary. */
  lemma ChildStaysPlain(a: Files, b: Files, src: Path, dst: Path, n: Name)
    requires dst != [] && Apart(src, dst) && IsFolder(a, src)
    requires Keeps(a, b, src + [n], dst + [n]) && StaysPlain(a, b, src + [n], dst + [n])
    ensures StaysPlain(a, b, src, dst)
  {
    FolderIsOutside(src, dst, n);
    assert Same(a, b, dst + [n], dst);
    forall q | q in b && b[q].Folder?
      ensures IsFolder(a, q) || (Under(dst, q) && q != dst) || (Under(q, dst) && IsFolder(a, src + q[|dst|..]))
    {
      ChildFolder(a, b, src, dst, n, q);
    }
  }

  lemma ChildFolder(a: Files, b: Files, src: Path, dst: Path, n: Name, q: Path)
    requires IsFolder(a, src) && IsFolder(b, q) && FoldersCome(a, b, src + [n], dst + [n])
    ensures IsFolder(a, q) || (Under(dst, q) && q != dst) || (Under(q, dst) && IsFolder(a, src + q[|dst|..]))
  {
    var into := dst + [n];
    if Under(into, q) && q != into {
      WayToChild(q, dst, n);
      if q == dst {
        assert src + q[|dst|..] == src;
      }
    } else if Under(q, into) && IsFolder(a, src + [n] + q[|into|..]) {
      assert Under(into, dst);
      PrefixChain(dst, into, q);
      assert q[|dst|..] == [n] + q[|into|..];
      assert src + q[|dst|..] == src + [n] + q[|into|..];
    }
  }

  // ---- What each operation keeps -------------------------------------------------------------

  /** The whole of `s` takes the free name `t`. */
  lemma MovedKeeps(a: Files, s: Path, t: Path)
    requires s in a && NothingIn(a, t) && Apart(s, t)
    ensures KeepsAll(a, Renamed(a, s, t), s, t)
  {
    var b := Renamed(a, s, t);
    forall p | !InRegion(p, s, t) ensures Same(a, b, t, p) {
      OutsideStays(a, s, t, p);
    }
    forall p | p in a && a[p].File? ensures Held(b, p, s, t, a[p].content) {
      if Under(p, s) {
        var q := t + p[|s|..];
        RenamedAt(a, s, t, p);
        NearSelf(q);
        assert Under(q, t);
        if Under(q, s) {
          InsideIsApart(q, s, t);
        }
        assert Holds(b, q, a[p].content) && MayStand(q, p, s, t);
      } else {
        OutsideStays(a, s, t, p);
        StaysPut(b, p, s, t, a[p].content);
      }
    }
    forall q | q in b ensures !Under(q, s) {
      MovedLeaves(a, s, t, q);
    }
    NothingIsLess(a, b, s);
  }

  lemma NothingIsLess(a: Files, b: Files, s: Path)
    requires NothingIn(b, s)
    ensures OnlyLess(a, b, s)
  {
  }

  lemma MovedLeaves(a: Files, s: Path, t: Path, q: Path)
    requires s in a && NothingIn(a, t) && Apart(s, t) && q in Renamed(a, s, t)
    ensures !Under(q, s)
  {
    var p := RenamedFrom(a, s, t, q);
    if Under(p, s) {
      assert Under(q, t);
      if Under(q, s) {
        InsideIsApart(q, s, t);
      }
    }
  }

  lemma MovedComes(a: Files, s: Path, t: Path)
    requires s in a && NothingIn(a, t) && Apart(s, t)
    ensures Comes(a, Renamed(a, s, t), s, t)
  {
    var b := Renamed(a, s, t);
    forall q | q in b && b[q].File? && InRegion(q, s, t) ensures Came(a, b[q].content, q, s, t) {
      MovedLeaves(a, s, t, q);
      var p := RenamedFrom(a, s, t, q);
      RenamedAt(a, s, t, p);
      if Under(p, s) {
        NearSelf(q);
        assert Holds(a, p, b[q].content) && MayStand(q, p, s, t);
      } else {
        CameItself(a, b[q].content, q, s, t);
      }
    }
  }

  lemma MovedStaysPlain(a: Files, s: Path, t: Path)
    requires s in a && NothingIn(a, t) && Apart(s, t) && t != []
    ensures StaysPlain(a, Renamed(a, s, t), s, t)
  {
    var b := Renamed(a, s, t);
    RenamedAt(a, s, t, s);
    assert Moved(s, s, t) == t;
    forall q | q in b && b[q].Folder?
      ensures IsFolder(a, q) || (Under(t, q) && q != t) || (Under(q, t) && IsFolder(a, s + q[|t|..]))
    {
      var p := RenamedFrom(a, s, t, q);
      RenamedAt(a, s, t, p);
      if Under(p, s) {
        assert s + q[|t|..] == p;
      }
    }
  }

  /** A file, the one moving or the one in its way, takes a name beside `t`. */
  lemma AsideKeeps(a: Files, from: Path, beside: Path, s: Path, t: Path)
    requires WellFormed(a) && from in a && a[from].File? && (from == s || from == t) && Apart(s, t)
    requires NothingIn(a, beside) && Near(beside, t) && !Under(beside, s)
    ensures var b := Renamed(a, from, beside); KeepsAll(a, b, s, t) && Comes(a, b, s, t) && StaysPlain(a, b, s, t)
  {
    RenamedFileAlone(a, from, beside);
    assert Under(beside, beside) && Under(from, from) && Under(s, s) && Under(t, t);
    NothingBelowFile(a, from);
    FileAsideKeeps(a, from, beside, s, t);
    FileAsideComes(a, from, beside, s, t);
  }

  lemma FileAsideKeeps(a: Files, from: Path, beside: Path, s: Path, t: Path)
    requires from in a && a[from].File? && (from == s || from == t) && Apart(s, t)
    requires beside !in a && Near(beside, t) && !Under(beside, s)
    ensures KeepsAll(a, (a - {from})[beside := a[from]], s, t)
  {
    var b := (a - {from})[beside := a[from]];
    assert Under(from, from);
    forall p | !InRegion(p, s, t) ensures Same(a, b, t, p) {
      assert p != from && p != beside;
    }
    forall p | p in a && a[p].File? ensures Held(b, p, s, t, a[p].content) {
      if p == from {
        assert t + s[|s|..] == t;
        assert Holds(b, beside, a[p].content) && MayStand(beside, p, s, t);
      } else {
        StaysPut(b, p, s, t, a[p].content);
      }
    }
  }

  lemma FileAsideComes(a: Files, from: Path, beside: Path, s: Path, t: Path)
    requires from in a && a[from].File? && (from == s || from == t) && Apart(s, t)
    requires beside !in a && Near(beside, t) && !Under(beside, s)
    ensures Comes(a, (a - {from})[beside := a[from]], s, t)
  {
    var b := (a - {from})[beside := a[from]];
    assert Under(from, from);
    forall q | q in b && b[q].File? && InRegion(q, s, t) ensures Came(a, b[q].content, q, s, t) {
      if q == beside {
        assert t + s[|s|..] == t;
        assert Holds(a, from, b[q].content) && InRegion(from, s, t) && MayStand(beside, from, s, t);
      } else {
        CameItself(a, b[q].content, q, s, t);
      }
    }
  }

  lemma TakenAwayComes(a: Files, gone: Path, s: Path, t: Path)
    ensures Comes(a, a - {gone}, s, t) && StaysPlain(a, a - {gone}, s, t)
  {
    forall q | q in a - {gone} && a[q].File? && InRegion(q, s, t) ensures Came(a, a[q].content, q, s, t) {
      CameItself(a, a[q].content, q, s, t);
    }
  }

  /** The file moving goes, its contents being at `t` already. */
  lemma DroppedKeeps(a: Files, s: Path, t: Path)
    requires s in a && t in a && Apart(s, t) && a[s].File? && a[t].File? && a[s].content == a[t].content
    ensures KeepsAll(a, a - {s}, s, t)
  {
    assert Under(s, s) && Under(t, t);
    forall p | p in a && a[p].File? ensures Held(a - {s}, p, s, t, a[p].content) {
      DroppedHeld(a, s, t, p);
    }
  }

  lemma DroppedHeld(a: Files, s: Path, t: Path, p: Path)
    requires s in a && t in a && Apart(s, t) && a[s].File? && a[t].File? && a[s].content == a[t].content
    requires p in a && a[p].File?
    ensures Held(a - {s}, p, s, t, a[p].content)
  {
    var b := a - {s};
    if p == s {
      assert t + s[|s|..] == t && Under(s, s) && Under(t, t);
      NearSelf(t);
      assert Holds(b, t, a[s].content) && MayStand(t, s, s, t);
    } else {
      StaysPut(b, p, s, t, a[p].content);
    }
  }

  lemma EmptiedKeeps(a: Files, s: Path, t: Path)
    requires s in a && a[s].Folder?
    ensures KeepsAll(a, a - {s}, s, t)
  {
    assert Under(s, s);
    forall p | p in a && a[p].File? ensures Held(a - {s}, p, s, t, a[p].content) {
      StaysPut(a - {s}, p, s, t, a[p].content);
    }
  }

  lemma MadeFolderKeeps(a: Files, p: Path, s: Path, t: Path)
    requires p !in a && Under(t, p) && p != t && p != [] && Apart(s, t)
    ensures var b := a[p := Folder(0)]; KeepsAll(a, b, s, t) && Comes(a, b, s, t) && StaysPlain(a, b, s, t)
  {
    var b := a[p := Folder(0)];
    forall q | q in a && a[q].File? ensures Held(b, q, s, t, a[q].content) {
      StaysPut(b, q, s, t, a[q].content);
    }
    forall q | q in b && b[q].File? && InRegion(q, s, t) ensures Came(a, b[q].content, q, s, t) {
      CameItself(a, b[q].content, q, s, t);
    }
    if Under(p, s) {
      PrefixChain(s, p, t);
    }
  }
}
