/** The name a file keeps when another takes its own: `<name>.old<ext>`, then `.old2`,
    `.old3` and so on while taken. Different numbers give different names, so a disk
    runs out of files before the search runs out of names. A file may step aside again
    for another; the names it may come to have are those near the first. */
module BesideNames {
  import opened Wrappers
  import opened Numerals
  import opened DiskModel

  /** Where the extension starts, its dot included; a leading dot starts none. */
  function DotFrom(name: Name, k: nat): (r: nat)
    requires k <= |name|
    ensures r <= |name| && (name != "" ==> r >= 1)
    decreases k
  {
    if k <= 1 then |name| else if name[k - 1] == '.' then k - 1 else DotFrom(name, k - 1)
  }

  function Stem(name: Name): Name {
    name[..DotFrom(name, |name|)]
  }

  function Extension(name: Name): Name {
    name[DotFrom(name, |name|)..]
  }

  function Mark(n: nat): string
    requires n >= 1
  {
    if n == 1 then ".old" else ".old" + Decimal(n)
  }

  function Beside(name: Name, n: nat): Name
    requires n >= 1
  {
    Stem(name) + Mark(n) + Extension(name)
  }

  /** The `n`-th candidate beside a path. */
  function Candidate(p: Path, n: nat): Path
    requires p != [] && n >= 1
  {
    Parent(p) + [Beside(p[|p| - 1], n)]
  }

  lemma {:induction false} DotFromEnd(stem: Name, ext: Name, k: nat)
    requires stem != "" && ext != "" && ext[0] == '.' && |stem| < k <= |stem + ext|
    requires forall i | 1 <= i < |ext| :: ext[i] != '.'
    ensures DotFrom(stem + ext, k) == |stem|
    decreases k
  {
    if k > |stem| + 1 {
      assert (stem + ext)[k - 1] == ext[k - 1 - |stem|];
      DotFromEnd(stem, ext, k - 1);
    } else {
      assert (stem + ext)[k - 1] == ext[0];
    }
  }

  lemma {:induction false} NoDot(name: Name, k: nat)
    requires k <= |name| && forall i | 1 <= i < |name| :: name[i] != '.'
    ensures DotFrom(name, k) == |name|
    decreases k
  {
    if k > 1 {
      NoDot(name, k - 1);
    }
  }

  /** The first name beside `report.txt` is `report.old.txt`, the third `report.old3.txt`,
      and beside `.profile`, whose one dot begins it, `.profile.old`. */
  lemma BesideIsSpelled(stem: Name, ext: Name, n: nat)
    requires n >= 1 && stem != ""
    requires if ext == "" then forall i | 1 <= i < |stem| :: stem[i] != '.'
             else ext[0] == '.' && forall i | 1 <= i < |ext| :: ext[i] != '.'
    ensures Beside(stem + ext, n) == stem + (if n == 1 then ".old" else ".old" + Decimal(n)) + ext
  {
    if ext == "" {
      assert stem + ext == stem;
      NoDot(stem, |stem|);
    } else {
      DotFromEnd(stem, ext, |stem + ext|);
      assert (stem + ext)[..|stem|] == stem && (stem + ext)[|stem|..] == ext;
    }
  }

  lemma MarksDiffer(a: nat, b: nat)
    requires 1 <= a && 1 <= b && Mark(a) == Mark(b)
    ensures a == b
  {
    DecimalReadsBack(a);
    DecimalReadsBack(b);
    if a > 1 && b > 1 {
      assert Mark(a)[4..] == Decimal(a) && Mark(b)[4..] == Decimal(b);
    } else {
      assert |Mark(1)| == 4;
    }
  }

  lemma MiddleIsOne(stem: string, a: string, b: string, end: string)
    requires stem + a + end == stem + b + end
    ensures a == b
  {
    assert (stem + a + end)[|stem|..|stem| + |a|] == a;
    assert |a| == |b|;
    assert (stem + b + end)[|stem|..|stem| + |b|] == b;
  }

  /** Different numbers, different names; and never the name itself. */
  lemma CandidatesDiffer(p: Path, a: nat, b: nat)
    requires p != [] && 1 <= a && 1 <= b && Candidate(p, a) == Candidate(p, b)
    ensures a == b
  {
    var name := p[|p| - 1];
    assert Candidate(p, a)[|p| - 1] == Beside(name, a) && Candidate(p, b)[|p| - 1] == Beside(name, b);
    MiddleIsOne(Stem(name), Mark(a), Mark(b), Extension(name));
    MarksDiffer(a, b);
  }

  lemma CandidateIsAnother(p: Path, n: nat)
    requires p != [] && n >= 1
    ensures Candidate(p, n) != [] && Candidate(p, n) != p && Parent(Candidate(p, n)) == Parent(p)
    ensures |Candidate(p, n)| == |p|
  {
    var name := p[|p| - 1];
    assert name == Stem(name) + Extension(name);
    assert |Beside(name, n)| > |name|;
    assert Candidate(p, n)[|p| - 1] == Beside(name, n);
  }

  // ---- Names taken one after another -------------------------------------------

  /** The name after stepping aside once for every number (the first candidate
      is number 0). */
  function Besides(p: Path, ns: seq<nat>): (r: Path)
    ensures |r| == |p| && (p != [] ==> Parent(r) == Parent(p))
    decreases |ns|
  {
    if ns == [] || p == [] then p else Candidate(Besides(p, ns[..|ns| - 1]), ns[|ns| - 1] + 1)
  }

  /** `q` is `p` or a name something that had `p` may have stepped aside to. */
  ghost predicate Near(q: Path, p: Path) {
    exists ns :: q == Besides(p, ns)
  }

  lemma NearSelf(p: Path)
    ensures Near(p, p)
  {
    assert p == Besides(p, []);
  }

  lemma NearCandidate(p: Path, n: nat)
    requires p != [] && n >= 1
    ensures Near(Candidate(p, n), p)
  {
    var ns: seq<nat> := [n - 1];
    assert ns[..|ns| - 1] == [];
    assert Besides(p, ns) == Candidate(p, n);
  }

  lemma BesidesStep(p: Path, ns: seq<nat>)
    requires ns != []
    ensures Besides(p, ns) ==
      if p == [] then p else Candidate(Besides(p, ns[..|ns| - 1]), ns[|ns| - 1] + 1)
  {
  }

  lemma {:induction false} BesidesOn(p: Path, a: seq<nat>, b: seq<nat>)
    ensures Besides(Besides(p, a), b) == Besides(p, a + b)
    decreases |b|
  {
    if b == [] {
      assert a + b == a;
    } else {
      var m := |b| - 1;
      BesidesOn(p, a, b[..m]);
      BesidesStep(Besides(p, a), b);
      assert (a + b)[..|a + b| - 1] == a + b[..m];
      BesidesStep(p, a + b);
    }
  }

  lemma NearOn(r: Path, q: Path, p: Path)
    requires Near(r, q) && Near(q, p)
    ensures Near(r, p)
  {
    var a :| q == Besides(p, a);
    var b :| r == Besides(q, b);
    BesidesOn(p, a, b);
  }

  /** What steps aside stays in its folder. */
  lemma NearIsSibling(q: Path, p: Path)
    requires Near(q, p)
    ensures |q| == |p| && (p != [] ==> Parent(q) == Parent(p))
  {
    var ns :| q == Besides(p, ns);
  }

  predicate StartsAlike(a: Name, b: Name) {
    a != "" && b != "" && a[0] == b[0]
  }

  lemma {:induction false} BesidesStartAlike(p: Path, ns: seq<nat>)
    requires p != [] && p[|p| - 1] != ""
    ensures var q := Besides(p, ns); q != [] && StartsAlike(q[|q| - 1], p[|p| - 1])
    decreases |ns|
  {
    if ns != [] {
      var before := ns[..|ns| - 1];
      BesidesStartAlike(p, before);
      BesidesStep(p, ns);
      var q := Besides(p, before);
      var name := q[|q| - 1];
      assert Beside(name, ns[|ns| - 1] + 1)[0] == Stem(name)[0] == name[0];
    }
  }

  /** Stepping aside never changes how a name begins. */
  lemma NearStartsAlike(q: Path, p: Path)
    requires Near(q, p) && p != [] && p[|p| - 1] != ""
    ensures q != [] && StartsAlike(q[|q| - 1], p[|p| - 1])
  {
    var ns :| q == Besides(p, ns);
    BesidesStartAlike(p, ns);
  }

  // ---- The first free name -----------------------------------------------------

  lemma {:induction false} SubsetIsSmaller(a: set<Path>, b: set<Path>)
    requires a <= b
    ensures |a| <= |b|
  {
    if a != {} {
      var x :| x in a;
      SubsetIsSmaller(a - {x}, b - {x});
    }
  }

  function Candidates(p: Path, n: nat): (s: set<Path>)
    requires p != []
  {
    set k | 1 <= k < n :: Candidate(p, k)
  }

  lemma LastIsNew(p: Path, n: nat)
    requires p != [] && n > 1
    ensures Candidate(p, n - 1) !in Candidates(p, n - 1)
    ensures Candidates(p, n) == Candidates(p, n - 1) + {Candidate(p, n - 1)}
  {
    forall k | 1 <= k < n - 1 ensures Candidate(p, k) != Candidate(p, n - 1) {
      if Candidate(p, k) == Candidate(p, n - 1) {
        CandidatesDiffer(p, k, n - 1);
      }
    }
  }

  lemma {:induction false} CandidatesCount(p: Path, n: nat)
    requires p != [] && n >= 1
    ensures |Candidates(p, n)| == n - 1
  {
    if n > 1 {
      CandidatesCount(p, n - 1);
      LastIsNew(p, n);
    }
  }

  /** A disk holds only so many of the candidates. */
  lemma TakenAreFew(files: Files, p: Path, n: nat)
    requires p != [] && n >= 1 && forall k | 1 <= k < n :: Candidate(p, k) in files
    ensures n - 1 <= |files.Keys|
  {
    CandidatesCount(p, n);
    SubsetIsSmaller(Candidates(p, n), files.Keys);
  }

  /** The first free name beside a path. */
  method BesideName(files: Files, p: Path) returns (beside: Path, n: nat)
    requires p != []
    ensures n >= 1 && beside == Candidate(p, n) && beside !in files
    ensures forall k | 1 <= k < n :: Candidate(p, k) in files
  {
    n := 1;
    while Candidate(p, n) in files
      invariant n >= 1 && (forall k | 1 <= k < n :: Candidate(p, k) in files)
      decreases |files.Keys| + 1 - n
    {
      n := n + 1;
      TakenAreFew(files, p, n);
    }
    beside := Candidate(p, n);
  }
}
