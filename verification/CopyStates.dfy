/** The disk while something is copied to another volume: as long as the copy is
    under way the source is whole and nothing partial has a real name; once it is
    made, what was brought along is in place and the source may go. */
module CopyStates {
  import opened Wrappers
  import opened DiskModel
  import opened BesideNames
  import opened TemporaryNames
  import opened FolderWalks
  import opened LayoutKeeps
  import opened LayoutRuns
  import opened Disks

  ghost predicate SameAt(a: Files, x: Files, p: Path) {
    (p in x <==> p in a) && (p in a ==> x[p] == a[p])
  }

  /** Of one kind, and files hold the same. */
  predicate Alike(m: Node, n: Node) {
    m.File? == n.File? && (m.File? ==> m.content == n.content)
  }

  /** Nothing else changed. */
  ghost predicate RestSame(a: Files, x: Files, src: Path, dst: Path)
    requires dst != []
  {
    forall p {:trigger SameAt(a, x, p)} | !Under(p, src) && !Under(p, dst) && p != Temp(dst) :: SameAt(a, x, p)
  }

  ghost predicate SourceWhole(a: Files, x: Files, src: Path) {
    forall p {:trigger SameAt(a, x, p)} | Under(p, src) :: SameAt(a, x, p)
  }

  /** Copying a file uses its temporary name, unless a folder is in the way. */
  ghost predicate TempAs(a: Files, x: Files, src: Path, dst: Path)
    requires dst != []
  {
    if IsFile(a, src) && !IsFolder(a, Temp(dst)) then Temp(dst) in x ==> x[Temp(dst)].File? else SameAt(a, x, Temp(dst))
  }

  predicate Faithful(a: Files, x: Files, src: Path, dst: Path, q: Path)
    requires q in x
  {
    Source(q, src, dst) in a && Alike(a[Source(q, src, dst)], x[q])
  }

  /** What stands in the copy under a real name is what stands in the source. */
  ghost predicate NothingPartial(a: Files, x: Files, src: Path, dst: Path) {
    forall q {:trigger q in x} | q in x && Under(q, dst) ::
      && (Real(q) || x[q].Folder? ==> Faithful(a, x, src, dst, q))
      && (IsFile(a, src) ==> q == dst)
  }

  /** A copy under way. */
  ghost predicate Underway(a: Files, x: Files, src: Path, dst: Path)
    requires dst != []
  {
    RestSame(a, x, src, dst) && SourceWhole(a, x, src) && TempAs(a, x, src, dst) && NothingPartial(a, x, src, dst)
  }

  // ---- What a copy brings along ---------------------------------------------------------

  /** Among the first `k` names, `p` is that of a file and the temporary name of one
      listed after it. */
  predicate ClearedIn(a: Files, d: Path, names: seq<Name>, k: nat, p: Path)
    requires k <= |names|
  {
    IsFile(a, p) && exists i, j :: 0 <= i < j < k && d + [names[i]] == p && names[i] == names[j] + SUFFIX && IsFile(a, d + [names[j]])
  }

  /** Copying its folder clears the copy of `p` away again. */
  predicate Cleared(l: Listing, a: Files, p: Path) {
    p != [] && var names := l(Parent(p), ChildNames(a, Parent(p))); ClearedIn(a, Parent(p), names, |names|, p)
  }

  predicate Brought(l: Listing, a: Files, src: Path, p: Path) {
    p in a && (p == src || !Cleared(l, a, p))
  }

  ghost predicate CopyMade(l: Listing, a: Files, x: Files, src: Path, dst: Path) {
    forall q {:trigger q in x} | Under(q, dst) ::
      (q in x <==> Brought(l, a, src, Source(q, src, dst))) && (q in x ==> Faithful(a, x, src, dst, q))
  }

  /** The copy is made; the source may be going. */
  ghost predicate Made(l: Listing, a: Files, x: Files, src: Path, dst: Path)
    requires dst != []
  {
    && RestSame(a, x, src, dst) && OnlyLess(a, x, src) && CopyMade(l, a, x, src, dst)
    && (if IsFile(a, src) then Temp(dst) !in x && !IsFolder(a, Temp(dst)) else SameAt(a, x, Temp(dst)))
  }

  /** What the copy costs: the file under the temporary name of a file copied, or
      what copying a folder clears away again. */
  function Gone(l: Listing, a: Files, src: Path, dst: Path): set<Path>
    requires dst != []
  {
    if IsFile(a, src) then (if IsFile(a, Temp(dst)) then {Temp(dst)} else {})
    else set p | p in a && Under(p, src) && p != src && Cleared(l, a, p)
  }

  lemma ClearedIsTemporary(l: Listing, a: Files, p: Path)
    requires Cleared(l, a, p)
    ensures IsFile(a, p) && !Real(p)
  {
    var d := Parent(p);
    var names := l(d, ChildNames(a, d));
    var i, j :| 0 <= i < j < |names| && d + [names[i]] == p && names[i] == names[j] + SUFFIX && IsFile(a, d + [names[j]]);
    TempIsTemporary(names[j]);
    assert p[|p| - 1] == names[i];
  }

  /** Clearing away in a folder depends on that folder alone. */
  lemma ClearedSame(l: Listing, a: Files, b: Files, src: Path, p: Path)
    requires SourceWhole(a, b, src) && Under(p, src) && p != src
    ensures Cleared(l, a, p) <==> Cleared(l, b, p)
  {
    var d := Parent(p);
    InsideByParent(p, src);
    ChildrenAreThere(a, d);
    ChildrenAreThere(b, d);
    forall n ensures SameAt(a, b, d + [n]) {
      assert Under(d + [n], d);
      PrefixChain(src, d, d + [n]);
    }
    assert ChildNames(a, d) == ChildNames(b, d);
    assert SameAt(a, b, p);
    forall n ensures IsFile(a, d + [n]) <==> IsFile(b, d + [n]) {
      assert SameAt(a, b, d + [n]);
    }
  }

  lemma InsideByParent(p: Path, top: Path)
    requires p != []
    ensures Under(p, top) && p != top ==> Under(Parent(p), top)
  {
    PrefixIs(p, top);
  }

  lemma SourceOf(q: Path, src: Path, dst: Path)
    requires Under(q, dst)
    ensures Under(Source(q, src, dst), src) && (q == dst <==> Source(q, src, dst) == src)
    ensures q != dst ==> q[|q| - 1] == Source(q, src, dst)[|Source(q, src, dst)| - 1]
  {
    var p := Source(q, src, dst);
    assert p == src + q[|dst|..];
    assert q == dst + q[|dst|..];
  }

  lemma SourceOfMoved(p: Path, src: Path, dst: Path)
    requires Under(p, src)
    ensures Under(dst + p[|src|..], dst) && Source(dst + p[|src|..], src, dst) == p
  {
    assert (dst + p[|src|..])[|dst|..] == p[|src|..];
  }

  lemma SourceOfChild(q: Path, src: Path, dst: Path, n: Name)
    requires Under(q, dst + [n])
    ensures Under(q, dst) && q != dst && Source(q, src, dst) == Source(q, src + [n], dst + [n])
  {
    assert Under(dst + [n], dst);
    PrefixChain(dst, dst + [n], q);
    assert q[|dst|..] == [n] + q[|dst| + 1..];
  }

  // ---- A copy under way --------------------------------------------------------------------

  lemma UnderwayAtFirst(a: Files, src: Path, dst: Path)
    requires dst != [] && NothingIn(a, dst)
    ensures Underway(a, a, src, dst)
  {
  }

  /** Writing under the temporary name. */
  lemma UnderwayScribbled(a: Files, b: Files, x: Files, src: Path, dst: Path)
    requires dst != [] && src != Temp(dst) && IsFile(a, src) && !IsFolder(a, Temp(dst))
    requires Underway(a, b, src, dst) && Apart(src, dst) && (Scribbled(b, x, Temp(dst)) || x == b - {Temp(dst)})
    ensures Underway(a, x, src, dst)
  {
    var p := Temp(dst);
    TempIsBeside(dst);
    if Under(p, src) {
      InsideByParent(p, src);
      assert Under(dst, Parent(dst));
      PrefixChain(src, Parent(dst), dst);
    }
    assert !Under(p, src) && !Under(p, dst);
    forall q | q != p ensures SameAt(b, x, q) {
    }
    forall q | Under(q, src) ensures SameAt(a, x, q) {
      assert SameAt(a, b, q) && SameAt(b, x, q);
    }
    forall q | !Under(q, src) && !Under(q, dst) && q != p ensures SameAt(a, x, q) {
      assert SameAt(a, b, q) && SameAt(b, x, q);
    }
  }

  lemma TempIsBeside(dst: Path)
    requires dst != []
    ensures !Under(Temp(dst), dst) && !Under(dst, Temp(dst)) && Temp(dst) != [] && Under(dst, Parent(dst))
  {
  }

  /** Taking away from the copy. */
  lemma UnderwayLess(a: Files, c: Files, x: Files, src: Path, dst: Path)
    requires dst != [] && Apart(src, dst) && Underway(a, c, src, dst) && Lessened(c, x, dst)
    ensures Underway(a, x, src, dst)
  {
    TempIsBeside(dst);
    forall p | Under(p, src) ensures SameAt(a, x, p) {
      InsideIsApart(p, src, dst);
      assert SameAt(a, c, p) && SameAt(c, x, p);
    }
    forall p | !Under(p, src) && !Under(p, dst) && p != Temp(dst) ensures SameAt(a, x, p) {
      assert SameAt(a, c, p) && SameAt(c, x, p);
    }
    assert SameAt(c, x, Temp(dst));
  }

  /** Only less than before, and only at `p`. */
  ghost predicate Lessened(a: Files, x: Files, p: Path) {
    && (forall q {:trigger SameAt(a, x, q)} | !Under(q, p) :: SameAt(a, x, q))
    && (forall q {:trigger q in x} | q in x :: q in a && x[q] == a[q])
  }

  lemma LessenedOn(a: Files, b: Files, c: Files, p: Path, top: Path)
    requires Lessened(a, b, top) && Lessened(b, c, p) && Under(p, top)
    ensures Lessened(a, c, top)
  {
    forall q | !Under(q, top) ensures SameAt(a, c, q) {
      if Under(q, p) {
        PrefixChain(top, p, q);
      }
      assert SameAt(a, b, q) && SameAt(b, c, q);
    }
  }

  /** The source going. */
  lemma MadeLess(l: Listing, a: Files, c: Files, x: Files, src: Path, dst: Path)
    requires src != [] && dst != [] && Apart(src, dst) && Made(l, a, c, src, dst) && Lessened(c, x, src)
    requires Parent(src) != Parent(dst)
    ensures Made(l, a, x, src, dst)
  {
    TempIsBeside(dst);
    TempIsOutside(src, dst);
    assert SameAt(c, x, Temp(dst));
    forall q | Under(q, dst) ensures SameAt(c, x, q) {
      if Under(q, src) {
        InsideIsApart(q, src, dst);
      }
    }
    forall p | !Under(p, src) && !Under(p, dst) && p != Temp(dst) ensures SameAt(a, x, p) {
      assert SameAt(a, c, p) && SameAt(c, x, p);
    }
    forall q | Under(q, dst)
      ensures (q in x <==> Brought(l, a, src, Source(q, src, dst))) && (q in x ==> Faithful(a, x, src, dst, q))
    {
      assert SameAt(c, x, q);
    }
  }

  lemma TempIsOutside(src: Path, dst: Path)
    requires src != [] && dst != [] && Apart(src, dst) && Parent(src) != Parent(dst)
    ensures !Under(Temp(dst), src)
  {
    if Under(Temp(dst), src) {
      InsideByParent(Temp(dst), src);
      TempIsBeside(dst);
      if Temp(dst) != src {
        PrefixChain(src, Parent(dst), dst);
      }
    }
  }

  // ---- A folder copied child by child -------------------------------------------------------

  lemma TempOfChildIsInside(dst: Path, n: Name)
    ensures dst + [n] != [] && Under(Temp(dst + [n]), dst) && Temp(dst + [n]) != dst
  {
    TempOfChild(dst, n);
    assert Under(dst + [n + SUFFIX], dst);
  }

  /** Outside a child's copy things are as before it. */
  lemma OutsideChild(b: Files, x: Files, src: Path, dst: Path, n: Name, q: Path)
    requires dst != [] && Apart(src, dst) && Underway(b, x, src + [n], dst + [n])
    requires !Under(q, dst + [n]) && q != Temp(dst + [n])
    ensures SameAt(b, x, q)
  {
    if Under(q, src + [n]) {
      assert SameAt(b, x, q);
    } else {
      assert SameAt(b, x, q);
    }
  }

  lemma ChildUnderway(a: Files, b: Files, x: Files, src: Path, dst: Path, n: Name)
    requires dst != [] && Apart(src, dst) && IsFolder(a, src) && src + [n] in b
    requires Underway(a, b, src, dst) && Underway(b, x, src + [n], dst + [n])
    ensures Underway(a, x, src, dst)
  {
    TempOfChildIsInside(dst, n);
    TempIsBeside(dst);
    assert Under(dst + [n], dst);
    forall p | !Under(p, dst) ensures SameAt(b, x, p) {
      DeeperIsUnder(p, dst, n);
      OutsideChild(b, x, src, dst, n, p);
    }
    forall p | Under(p, src) ensures SameAt(a, x, p) {
      InsideIsApart(p, src, dst);
      assert SameAt(a, b, p) && SameAt(b, x, p);
    }
    forall p | !Under(p, src) && !Under(p, dst) && p != Temp(dst) ensures SameAt(a, x, p) {
      assert SameAt(a, b, p) && SameAt(b, x, p);
    }
    assert SameAt(a, b, Temp(dst)) && SameAt(b, x, Temp(dst));
    forall q | q in x && Under(q, dst) && (Real(q) || x[q].Folder?) ensures Faithful(a, x, src, dst, q) {
      ChildFaithful(a, b, x, src, dst, n, q);
    }
  }

  lemma ChildFaithful(a: Files, b: Files, x: Files, src: Path, dst: Path, n: Name, q: Path)
    requires dst != [] && Apart(src, dst) && IsFolder(a, src) && src + [n] in b
    requires Underway(a, b, src, dst) && Underway(b, x, src + [n], dst + [n])
    requires q in x && Under(q, dst) && (Real(q) || x[q].Folder?)
    ensures Faithful(a, x, src, dst, q)
  {
    if Under(q, dst + [n]) {
      SourceOfChild(q, src, dst, n);
      SourceOf(q, src, dst);
      assert Faithful(b, x, src + [n], dst + [n], q);
      assert SameAt(a, b, Source(q, src, dst));
    } else {
      if q == Temp(dst + [n]) {
        assert x[q].Folder? && SameAt(b, x, q);
      } else {
        OutsideChild(b, x, src, dst, n, q);
      }
      assert Faithful(a, b, src, dst, q);
    }
  }

  /** What is in the copy once the first `i` names are copied. */
  predicate BroughtBy(l: Listing, a: Files, src: Path, names: seq<Name>, i: nat, p: Path)
    requires i <= |names|
  {
    && p in a && Under(p, src) && p != src && p[|src|] in names[..i]
    && (if Parent(p) == src then !ClearedIn(a, src, names, i, p) else !Cleared(l, a, p))
  }

  ghost predicate CopiedBy(l: Listing, a: Files, x: Files, src: Path, dst: Path, names: seq<Name>, i: nat)
    requires i <= |names|
  {
    && IsFolder(x, dst)
    && forall q {:trigger q in x} | Under(q, dst) && q != dst ::
      (q in x <==> BroughtBy(l, a, src, names, i, Source(q, src, dst))) && (q in x ==> Faithful(a, x, src, dst, q))
  }

  lemma NoneCopied(l: Listing, a: Files, src: Path, dst: Path, names: seq<Name>)
    requires dst != [] && Apart(src, dst) && IsFolder(a, src) && NothingIn(a, dst)
    ensures var x := a[dst := Folder(0)]; Underway(a, x, src, dst) && CopiedBy(l, a, x, src, dst, names, 0)
  {
    var x := a[dst := Folder(0)];
    TempIsBeside(dst);
    assert Source(dst, src, dst) == src;
    forall p | p != dst ensures SameAt(a, x, p) {
    }
    assert Under(dst, dst) && !Under(dst, src);
    assert Faithful(a, x, src, dst, dst);
  }

  lemma AllCopied(l: Listing, a: Files, x: Files, src: Path, dst: Path, names: seq<Name>)
    requires dst != [] && Apart(src, dst) && IsFolder(a, src) && WellFormed(a)
    requires names == l(src, ChildNames(a, src)) && forall n :: n in names <==> src + [n] in a
    requires Underway(a, x, src, dst) && CopiedBy(l, a, x, src, dst, names, |names|)
    ensures Made(l, a, x, src, dst)
  {
    assert names[..|names|] == names;
    assert SameAt(a, x, Temp(dst));
    forall q | Under(q, dst)
      ensures (q in x <==> Brought(l, a, src, Source(q, src, dst))) && (q in x ==> Faithful(a, x, src, dst, q))
    {
      SourceOf(q, src, dst);
      var p := Source(q, src, dst);
      if q == dst {
        assert SameAt(a, x, src);
      } else if p in a {
        FirstStepInside(a, p, src);
      }
    }
    forall q | q in x && Under(q, src) ensures q in a && x[q] == a[q] {
      assert SameAt(a, x, q);
    }
  }

  /** Which names count as cleared away grows by those the next file uses. */
  lemma ClearedByNext(a: Files, d: Path, names: seq<Name>, i: nat, p: Path)
    requires Distinct(names) && i < |names| && p != [] && Parent(p) == d && p[|d|] in names[..i + 1]
    ensures ClearedIn(a, d, names, i + 1, p) <==>
      ClearedIn(a, d, names, i, p) || (IsFile(a, p) && IsFile(a, d + [names[i]]) && p == d + [names[i] + SUFFIX])
  {
    assert p == d + [p[|d|]];
    if ClearedIn(a, d, names, i + 1, p) {
      var j, k :| 0 <= j < k < i + 1 && d + [names[j]] == p && names[j] == names[k] + SUFFIX && IsFile(a, d + [names[k]]);
      if k < i {
        assert ClearedIn(a, d, names, i, p);
      } else {
        assert p == d + [names[i] + SUFFIX];
      }
    }
    if IsFile(a, p) && IsFile(a, d + [names[i]]) && p == d + [names[i] + SUFFIX] {
      assert p[|d|] == names[i] + SUFFIX;
      TempIsTemporary(names[i]);
      var j :| 0 <= j < i + 1 && names[j] == p[|d|];
      assert j < i && d + [names[j]] == p;
    }
  }

  /** One more child is copied. */
  lemma OneMoreCopied(l: Listing, a: Files, b: Files, x: Files, src: Path, dst: Path, names: seq<Name>, i: nat)
    requires dst != [] && Apart(src, dst) && IsFolder(a, src) && Distinct(names) && i < |names| && src + [names[i]] in a
    requires Underway(a, b, src, dst) && CopiedBy(l, a, b, src, dst, names, i)
    requires Underway(b, x, src + [names[i]], dst + [names[i]]) && Made(l, b, x, src + [names[i]], dst + [names[i]])
    ensures CopiedBy(l, a, x, src, dst, names, i + 1)
  {
    TempOfChildIsInside(dst, names[i]);
    assert !Under(dst, dst + [names[i]]);
    OutsideChild(b, x, src, dst, names[i], dst);
    forall q | Under(q, dst) && q != dst
      ensures (q in x <==> BroughtBy(l, a, src, names, i + 1, Source(q, src, dst))) && (q in x ==> Faithful(a, x, src, dst, q))
    {
      if Under(q, dst + [names[i]]) {
        InsideNextChild(l, a, b, x, src, dst, names, i, q);
      } else {
        OutsideNextChild(l, a, b, x, src, dst, names, i, q);
      }
    }
  }

  lemma InsideNextChild(l: Listing, a: Files, b: Files, x: Files, src: Path, dst: Path, names: seq<Name>, i: nat, q: Path)
    requires dst != [] && Apart(src, dst) && Distinct(names) && i < |names| && src + [names[i]] in a
    requires SourceWhole(a, b, src) && Made(l, b, x, src + [names[i]], dst + [names[i]])
    requires Under(q, dst + [names[i]])
    ensures q in x <==> BroughtBy(l, a, src, names, i + 1, Source(q, src, dst))
    ensures q in x ==> Faithful(a, x, src, dst, q)
  {
    var child, p := src + [names[i]], Source(q, src, dst);
    SourceOfChild(q, src, dst, names[i]);
    SourceOf(q, src + [names[i]], dst + [names[i]]);
    SourceOf(q, src, dst);
    assert SameAt(a, b, p) && SameAt(a, b, child);
    assert p[|src|] == names[i] && names[i] in names[..i + 1];
    assert q in x <==> Brought(l, b, child, p);
    if p == child {
      ClearedByNext(a, src, names, i, p);
      TempIsTemporary(names[i]);
      NotYetListed(a, src, names, i);
    } else {
      ClearedSame(l, a, b, src, p);
      InsideByParent(p, child);
      assert Parent(p) != src;
    }
  }

  lemma NotYetListed(a: Files, d: Path, names: seq<Name>, i: nat)
    requires Distinct(names) && i < |names|
    ensures !ClearedIn(a, d, names, i, d + [names[i]])
  {
    forall j | 0 <= j < i ensures d + [names[j]] != d + [names[i]] {
      assert (d + [names[j]])[|d|] == names[j] && (d + [names[i]])[|d|] == names[i];
    }
  }

  lemma OutsideNextChild(l: Listing, a: Files, b: Files, x: Files, src: Path, dst: Path, names: seq<Name>, i: nat, q: Path)
    requires dst != [] && Apart(src, dst) && Distinct(names) && i < |names| && src + [names[i]] in a
    requires SourceWhole(a, b, src) && CopiedBy(l, a, b, src, dst, names, i)
    requires Underway(b, x, src + [names[i]], dst + [names[i]]) && Made(l, b, x, src + [names[i]], dst + [names[i]])
    requires Under(q, dst) && q != dst && !Under(q, dst + [names[i]])
    ensures q in x <==> BroughtBy(l, a, src, names, i + 1, Source(q, src, dst))
    ensures q in x ==> Faithful(a, x, src, dst, q)
  {
    var n, p := names[i], Source(q, src, dst);
    SourceOf(q, src, dst);
    assert Under(src + [n], src) && SameAt(a, b, src + [n]);
    FirstStepOfSource(q, src, dst);
    assert p[|src|] in names[..i + 1] <==> p[|src|] in names[..i];
    if Parent(p) == src && p[|src|] in names[..i + 1] {
      ClearedByNext(a, src, names, i, p);
    }
    TempOfChild(dst, n);
    assert q == Temp(dst + [n]) <==> p == src + [n + SUFFIX] by {
      SourceOfTemp(q, src, dst, n);
    }
    if q == Temp(dst + [n]) {
      if IsFile(a, src + [n]) {
        TempGoes(l, a, b, src, dst, names, i, p);
      } else {
        assert SameAt(b, x, q);
      }
    } else {
      OutsideChild(b, x, src, dst, n, q);
    }
  }

  lemma FirstStepOfSource(q: Path, src: Path, dst: Path)
    requires Under(q, dst) && q != dst
    ensures |q| > |dst| && |Source(q, src, dst)| > |src| && Source(q, src, dst)[|src|] == q[|dst|]
    ensures Under(q, dst + [q[|dst|]])
  {
    PrefixIs(q, dst);
    assert Source(q, src, dst) == src + q[|dst|..];
    assert q[..|dst| + 1] == dst + [q[|dst|]];
  }

  lemma SourceOfTemp(q: Path, src: Path, dst: Path, n: Name)
    requires Under(q, dst)
    ensures q == dst + [n + SUFFIX] <==> Source(q, src, dst) == src + [n + SUFFIX]
  {
    assert q == dst + q[|dst|..];
    assert Source(q, src, dst) == src + q[|dst|..];
    if Source(q, src, dst) == src + [n + SUFFIX] {
      assert (src + q[|dst|..])[|src|..] == q[|dst|..];
      assert (src + [n + SUFFIX])[|src|..] == [n + SUFFIX];
    }
  }

  /** Only a folder still stands in the copy under the temporary name of the next file. */
  lemma TempGoes(l: Listing, a: Files, b: Files, src: Path, dst: Path, names: seq<Name>, i: nat, p: Path)
    requires dst != [] && Distinct(names) && i < |names| && IsFile(a, src + [names[i]])
    requires CopiedBy(l, a, b, src, dst, names, i) && p == src + [names[i] + SUFFIX]
    ensures BroughtBy(l, a, src, names, i + 1, p) ==> IsFolder(b, Temp(dst + [names[i]]))
  {
    var q := Temp(dst + [names[i]]);
    TempOfChild(dst, names[i]);
    TempIsTemporary(names[i]);
    SourceOfTemp(q, src, dst, names[i]);
    assert Parent(p) == src && p[|src|] == names[i] + SUFFIX;
    if BroughtBy(l, a, src, names, i + 1, p) {
      ClearedByNext(a, src, names, i, p);
      assert p[|src|] in names[..i];
      assert BroughtBy(l, a, src, names, i, p);
      assert Under(q, dst) && q in b;
      assert Faithful(a, b, src, dst, q);
    }
  }
}
