/** Going through a folder child by child, as moving, copying, removing and sweeping
    all do: which of the listed names are left to visit, that one visited leaves the
    others alone, and how deep what is left may be. */
module FolderWalks {
  import opened Wrappers
  import opened DiskModel
  import opened BesideNames
  import opened LayoutKeeps

  predicate Distinct(names: seq<Name>) {
    forall i, j | 0 <= i < j < |names| :: names[i] != names[j]
  }

  function ChildNames(files: Files, p: Path): set<Name> {
    set q | q in files && q != [] && Parent(q) == p :: q[|q| - 1]
  }

  lemma ChildrenAreThere(files: Files, p: Path)
    ensures forall n :: n in ChildNames(files, p) <==> p + [n] in files
  {
    forall n ensures n in ChildNames(files, p) <==> p + [n] in files {
      if n in ChildNames(files, p) {
        var q :| q in files && q != [] && Parent(q) == p && q[|q| - 1] == n;
        assert q == p + [n];
      }
      assert p + [n] in files ==> Parent(p + [n]) == p && (p + [n])[|p|] == n;
    }
  }

  ghost predicate Shallow(files: Files, src: Path, depth: nat) {
    forall p {:trigger p in files} | p in files && Under(p, src) :: |p| <= |src| + depth
  }

  lemma ChildIsShallow(files: Files, src: Path, n: Name, depth: nat)
    requires Shallow(files, src, depth) && src + [n] in files
    ensures depth >= 1 && Shallow(files, src + [n], depth - 1)
  {
    assert Under(src + [n], src);
    forall p | p in files && Under(p, src + [n]) ensures |p| <= |src + [n]| + (depth - 1) {
      PrefixChain(src, src + [n], p);
    }
  }

  predicate UnderOne(p: Path, src: Path, names: seq<Name>, i: nat) {
    exists m :: i <= m < |names| && Under(p, src + [names[m]])
  }

  /** The names from `i` on are all that is left in the folder. */
  ghost predicate Remaining(files: Files, src: Path, names: seq<Name>, i: nat) {
    && (forall p {:trigger UnderOne(p, src, names, i)} | p in files && Under(p, src) && p != src :: UnderOne(p, src, names, i))
    && (forall m {:trigger names[m]} | i <= m < |names| :: src + [names[m]] in files)
  }

  /** What lies inside a folder lies under one of its children. */
  lemma FirstStepInside(files: Files, p: Path, src: Path)
    requires WellFormed(files) && p in files && Under(p, src) && p != src
    ensures |p| > |src| && src + [p[|src|]] in files && Under(p, src + [p[|src|]])
  {
    PrefixIs(p, src);
    var k := |src| + 1;
    assert p[..k] == src + [p[|src|]];
    if |p| > k {
      AncestorsAreFolders(files, p, k);
    } else {
      assert p[..k] == p;
    }
  }

  lemma AllRemain(files: Files, src: Path, names: seq<Name>)
    requires WellFormed(files) && forall n :: n in names <==> src + [n] in files
    ensures Remaining(files, src, names, 0)
  {
    forall p | p in files && Under(p, src) && p != src ensures UnderOne(p, src, names, 0) {
      FirstStepInside(files, p, src);
      var m :| 0 <= m < |names| && names[m] == p[|src|];
    }
    forall m | 0 <= m < |names| ensures src + [names[m]] in files {
      assert names[m] in names;
    }
  }

  lemma NoneRemain(files: Files, src: Path, names: seq<Name>)
    requires Remaining(files, src, names, |names|)
    ensures forall q | q in files && Under(q, src) :: q == src
  {
    forall q | q in files && Under(q, src) ensures q == src {
      assert q != src ==> UnderOne(q, src, names, |names|);
    }
  }

  lemma OtherChild(src: Path, a: Name, b: Name)
    requires a != b
    ensures !Under(src + [a], src + [b])
  {
    assert (src + [a])[|src|] == a && (src + [b])[|src|] == b;
  }

  /** With one child gone and the others as they were, one name less remains. */
  lemma OneLess(b: Files, c: Files, src: Path, names: seq<Name>, i: nat)
    requires Distinct(names) && i < |names| && Remaining(b, src, names, i) && NothingIn(c, src + [names[i]])
    requires forall p {:trigger p in b} {:trigger p in c} | Under(p, src) && !Under(p, src + [names[i]]) :: p in b <==> p in c
    ensures Remaining(c, src, names, i + 1)
  {
    forall p | p in c && Under(p, src) && p != src ensures UnderOne(p, src, names, i + 1) {
      assert !Under(p, src + [names[i]]) && p in b;
      assert UnderOne(p, src, names, i);
      var m :| i <= m < |names| && Under(p, src + [names[m]]);
      assert m != i;
    }
    forall m | i + 1 <= m < |names| ensures src + [names[m]] in c {
      OtherChild(src, names[m], names[i]);
      assert src + [names[m]] in b && Under(src + [names[m]], src);
    }
  }

  lemma ChildrenAreApart(src: Path, dst: Path, n: Name)
    requires Apart(src, dst)
    ensures Apart(src + [n], dst + [n])
  {
    var a, b := src + [n], dst + [n];
    assert Under(a, src) && Under(b, dst);
    if Under(b, a) {
      PrefixChain(src, a, b);
      BothPrefixes(b, src, dst);
    }
    if Under(a, b) {
      PrefixChain(dst, b, a);
      BothPrefixes(a, src, dst);
    }
  }

  lemma DeeperIsUnder(p: Path, top: Path, n: Name)
    ensures Under(p, top + [n]) ==> Under(p, top)
  {
    assert Under(top + [n], top);
    if Under(p, top + [n]) {
      PrefixChain(top, top + [n], p);
    }
  }

  lemma {:induction false} DepthBound(paths: set<Path>) returns (depth: nat)
    ensures forall p | p in paths :: |p| <= depth
  {
    if paths == {} {
      depth := 0;
    } else {
      var p :| p in paths;
      var rest := DepthBound(paths - {p});
      depth := if rest < |p| then |p| else rest;
      forall q | q in paths ensures |q| <= depth {
        assert q == p || q in paths - {p};
      }
    }
  }

  lemma SomeDepth(files: Files, src: Path) returns (depth: nat)
    ensures Shallow(files, src, depth)
  {
    depth := DepthBound(files.Keys);
  }
}
