/** A disk as the layout move sees it: files and folders by path. What a file holds
    and when it was changed is all that is known of it. Renaming takes everything
    under the old name along; it is defined by where each path goes, and shown to
    leave a disk in which everything still lies in a folder. */
module DiskModel {
  import opened Wrappers

  type Name = string

  type Path = seq<Name>

  datatype Node = File(content: int, modified: int) | Folder(modified: int)

  type Files = map<Path, Node>

  function Parent(p: Path): Path
    requires p != []
  {
    p[..|p| - 1]
  }

  /** `p` is `top` or inside it. */
  predicate Under(p: Path, top: Path) {
    top <= p
  }

  predicate IsFolder(files: Files, p: Path) {
    p in files && files[p].Folder?
  }

  predicate IsFile(files: Files, p: Path) {
    p in files && files[p].File?
  }

  /** Everything lies in a folder. */
  ghost predicate WellFormed(files: Files) {
    IsFolder(files, []) && forall p {:trigger p in files} | p in files && p != [] :: IsFolder(files, Parent(p))
  }

  predicate Apart(a: Path, b: Path) {
    !Under(a, b) && !Under(b, a)
  }

  // ---- Renaming -----------------------------------------------------------------------

  function Moved(p: Path, from: Path, to: Path): Path {
    if Under(p, from) then to + p[|from|..] else p
  }

  /** `from` with everything in it under its new name. */
  function Renamed(files: Files, from: Path, to: Path): Files
    requires from in files && forall p | p in files :: !Under(p, to)
  {
    SourcesAreThere(files, from, to);
    map q | q in (set p | p in files :: Moved(p, from, to)) :: files[Source(q, from, to)]
  }

  /** Where a path under its new name stood before. */
  function Source(q: Path, from: Path, to: Path): Path {
    if Under(q, to) then from + q[|to|..] else q
  }

  lemma MovedBack(p: Path, from: Path, to: Path)
    requires !Under(p, to)
    ensures Source(Moved(p, from, to), from, to) == p
  {
    if Under(p, from) {
      assert Moved(p, from, to)[|to|..] == p[|from|..];
    }
  }

  lemma SourcesAreThere(files: Files, from: Path, to: Path)
    requires forall p | p in files :: !Under(p, to)
    ensures forall q | q in (set p | p in files :: Moved(p, from, to)) :: Source(q, from, to) in files
  {
    forall q | q in (set p | p in files :: Moved(p, from, to)) ensures Source(q, from, to) in files {
      var p :| p in files && Moved(p, from, to) == q;
      MovedBack(p, from, to);
    }
  }

  lemma PrefixChain(a: Path, b: Path, c: Path)
    requires Under(b, a) && Under(c, b)
    ensures Under(c, a)
  {
    assert c[..|a|] == b[..|a|];
  }

  lemma {:induction false} AncestorsAreFolders(files: Files, p: Path, k: nat)
    requires WellFormed(files) && p in files && k < |p|
    ensures IsFolder(files, p[..k])
    decreases |p| - k
  {
    if k + 1 == |p| {
      assert p[..k] == Parent(p);
    } else {
      AncestorsAreFolders(files, p, k + 1);
      assert Parent(p[..k + 1]) == p[..k];
    }
  }

  lemma PrefixIs(p: Path, top: Path)
    ensures Under(p, top) ==> |top| <= |p| && p[..|top|] == top && (|p| == |top| ==> p == top)
  {
  }

  lemma ParentIsThere(files: Files, p: Path)
    requires WellFormed(files) && p in files && p != []
    ensures IsFolder(files, Parent(p))
  {
  }

  /** Nothing lies under a path that is not there. */
  lemma NothingUnder(files: Files, top: Path)
    requires WellFormed(files) && top !in files
    ensures forall p | p in files :: !Under(p, top)
  {
    forall p | p in files ensures !Under(p, top) {
      PrefixIs(p, top);
      if |p| > |top| {
        AncestorsAreFolders(files, p, |top|);
      }
    }
  }

  lemma ParentIsNotUnder(p: Path, top: Path)
    requires p != [] && !Under(p, top)
    ensures !Under(Parent(p), top)
  {
    assert Under(p, Parent(p));
    if Under(Parent(p), top) {
      PrefixChain(top, Parent(p), p);
    }
  }

  lemma RenamedAt(files: Files, from: Path, to: Path, p: Path)
    requires from in files && (forall q | q in files :: !Under(q, to)) && p in files
    ensures Moved(p, from, to) in Renamed(files, from, to) && Renamed(files, from, to)[Moved(p, from, to)] == files[p]
  {
    MovedBack(p, from, to);
  }

  /** Where a renamed path comes from. */
  lemma RenamedFrom(files: Files, from: Path, to: Path, q: Path) returns (p: Path)
    requires from in files && (forall r | r in files :: !Under(r, to)) && q in Renamed(files, from, to)
    ensures p in files && q == Moved(p, from, to)
  {
    p :| p in files && Moved(p, from, to) == q;
  }

  lemma MovedParent(p: Path, from: Path, to: Path)
    requires Under(p, from) && p != from
    ensures p != [] && Under(Parent(p), from) && Moved(p, from, to) != []
    ensures Parent(Moved(p, from, to)) == Moved(Parent(p), from, to)
  {
    assert Parent(p)[|from|..] == p[|from|..][..|p| - |from| - 1];
  }

  lemma RenamedIsWellFormed(files: Files, from: Path, to: Path)
    requires WellFormed(files) && from in files && from != [] && to != [] && to !in files
    requires IsFolder(files, Parent(to)) && !Under(to, from)
    requires forall p | p in files :: !Under(p, to)
    ensures WellFormed(Renamed(files, from, to))
  {
    var after := Renamed(files, from, to);
    assert Moved([], from, to) == [];
    RenamedAt(files, from, to, []);
    forall q | q in after && q != [] ensures IsFolder(after, Parent(q)) {
      var p := RenamedFrom(files, from, to, q);
      if Under(p, from) && p != from {
        MovedParent(p, from, to);
        RenamedAt(files, from, to, Parent(p));
      } else if p == from {
        assert q == to;
        ParentIsNotUnder(to, from);
        RenamedAt(files, from, to, Parent(to));
      } else {
        ParentIsNotUnder(p, from);
        RenamedAt(files, from, to, Parent(p));
      }
    }
  }

  /** What a rename does not concern stays as it is. */
  lemma OutsideStays(files: Files, from: Path, to: Path, p: Path)
    requires from in files && (forall q | q in files :: !Under(q, to)) && !Under(p, from) && !Under(p, to)
    ensures p in Renamed(files, from, to) <==> p in files
    ensures p in files ==> Renamed(files, from, to)[p] == files[p]
  {
    if p in Renamed(files, from, to) {
      var q := RenamedFrom(files, from, to, p);
      assert Under(q, from) ==> Under(Moved(q, from, to), to);
    }
    if p in files {
      RenamedAt(files, from, to, p);
    }
  }

  lemma NothingBelowFile(files: Files, p: Path)
    requires WellFormed(files) && p in files && files[p].File?
    ensures forall q | q in files && Under(q, p) :: q == p
  {
    forall q | q in files && Under(q, p) ensures q == p {
      PrefixIs(q, p);
      if |q| > |p| {
        AncestorsAreFolders(files, q, |p|);
      }
    }
  }

  /** A file has nothing under it, so renaming one moves just it. */
  lemma RenamedFileAlone(files: Files, from: Path, to: Path)
    requires WellFormed(files) && from in files && files[from].File? && forall q | q in files :: !Under(q, to)
    ensures Renamed(files, from, to) == (files - {from})[to := files[from]]
  {
    NothingBelowFile(files, from);
    var after, alone := Renamed(files, from, to), (files - {from})[to := files[from]];
    assert Moved(from, from, to) == to;
    RenamedAt(files, from, to, from);
    forall q: Path
      ensures q in after <==> q in alone
      ensures q in after ==> after[q] == alone[q]
    {
      if q in after {
        var p := RenamedFrom(files, from, to, q);
        RenamedAt(files, from, to, p);
      }
      if q in alone && q != to {
        RenamedAt(files, from, to, q);
      }
    }
  }
}
