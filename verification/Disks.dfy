/** The disk as the program works on it, one operation after another. Any operation
    may fail, and the disk remembers every state it passed through, so that what is
    said of a state is said of every moment the program may stop at. */
module Disks {
  import opened Wrappers
  import opened DiskModel
  import opened FolderWalks
  import opened LayoutKeeps
  import opened LayoutRuns

  datatype Outcome = Works | Fails | Garbles

  datatype Renaming = Taken | Refused | Elsewhere

  type Listing = (Path, set<Name>) -> seq<Name>

  ghost predicate Lists(l: Listing, p: Path, names: set<Name>) {
    Distinct(l(p, names)) && forall n :: n in l(p, names) <==> n in names
  }

  /** What the program does not decide: how each operation ends, which places are on
      different volumes, what a write cut short leaves, the order a folder is
      listed in. */
  datatype World = World(plan: nat -> Outcome, crosses: (Path, Path) -> bool, scrap: nat -> int, listing: Listing) {
    /** A folder is on one volume, and a listing names each of its entries once. */
    ghost predicate Fair() {
      && (forall a, b {:trigger crosses(a, b)} | a != [] && b != [] && Parent(a) == Parent(b) :: !crosses(a, b))
      && (forall p, names {:trigger listing(p, names)} :: Lists(listing, p, names))
    }

    /** No operation from the `n`-th on fails. */
    ghost predicate NoFailure(n: nat) {
      forall k {:trigger plan(k)} | k >= n :: plan(k).Works?
    }

    ghost predicate OneVolume() {
      forall a, b {:trigger crosses(a, b)} :: !crosses(a, b)
    }
  }

  /** `p` was written, or not. */
  predicate Scribbled(a: Files, b: Files, p: Path) {
    b == a || (p in b && b[p].File? && b == a[p := b[p]])
  }

  lemma FileWellFormed(files: Files, p: Path, node: Node)
    requires WellFormed(files) && p != [] && IsFolder(files, Parent(p)) && !IsFolder(files, p)
    ensures WellFormed(files[p := node])
  {
    var b := files[p := node];
    forall q | q in b && q != [] ensures IsFolder(b, Parent(q)) {
      if q != p {
        ParentIsThere(files, q);
      }
    }
  }

  lemma EmptyGoes(files: Files, p: Path)
    requires WellFormed(files) && p != [] && forall q | q in files && Under(q, p) :: q == p
    ensures WellFormed(files - {p})
  {
    forall q | q in files - {p} && q != [] ensures IsFolder(files - {p}, Parent(q)) {
      assert Under(q, Parent(q));
      assert Parent(q) == p ==> Under(q, p);
    }
  }

  lemma StillAFolder(a: Files, b: Files, p: Path)
    requires p != [] && IsFolder(a, Parent(p)) && Scribbled(a, b, p)
    ensures IsFolder(b, Parent(p))
  {
  }

  lemma Overwritten(a: Files, b: Files, c: Files, p: Path)
    requires Scribbled(a, b, p) && Scribbled(b, c, p)
    ensures Scribbled(a, c, p)
  {
    if c != b && b != a {
      assert a[p := b[p]][p := c[p]] == a[p := c[p]];
    }
  }

  lemma RenamedOverWellFormed(files: Files, from: Path, to: Path)
    requires WellFormed(files) && from in files && files[from].File? && from != to
    requires from != [] && to != [] && IsFolder(files, Parent(to)) && !IsFolder(files, to)
    ensures WellFormed((files - {from})[to := files[from]])
  {
    NothingBelowFile(files, from);
    EmptyGoes(files, from);
    FileWellFormed(files - {from}, to, files[from]);
  }

  class Disk {
    var files: Files
    const world: World
    /** How many operations have been tried. */
    var tried: nat
    /** Every state so far, the present one last, and the copies made. */
    ghost var history: seq<Files>
    ghost var copies: seq<Copying>

    ghost predicate Valid()
      reads this
    {
      WellFormed(files) && world.Fair() && Recorded(Now())
    }

    ghost function Now(): Trace
      reads this
    {
      Trace(files, history, copies)
    }

    constructor (files: Files, world: World)
      requires WellFormed(files) && world.Fair()
      ensures Valid() && this.world == world && Now() == Trace(files, [files], []) && tried == 0
    {
      this.files, this.world, tried, history, copies := files, world, 0, [files], [];
    }

    /** Remembers that a copy was made. */
    ghost method Note(c: Copying)
      requires Valid()
      modifies this`copies
      ensures Valid() && Now() == old(Now()).(copies := old(copies) + [c])
    {
      copies := copies + [c];
    }

    /** Only looks. */
    method Look() returns (ok: bool)
      requires Valid()
      modifies this`tried
      ensures Valid() && tried == old(tried) + 1 && ok == world.plan(old(tried)).Works?
    {
      ok := world.plan(tried).Works?;
      tried := tried + 1;
    }

    /** A rename to a name that is free. */
    method Rename(from: Path, to: Path) returns (r: Renaming)
      requires Valid() && from in files && from != [] && to != [] && to !in files
      requires IsFolder(files, Parent(to)) && !Under(to, from)
      modifies this
      ensures Valid() && Now() == Stepped(old(Now()), files) && tried == old(tried) + 1 && NothingIn(old(files), to)
      ensures r == if world.crosses(from, to) then Elsewhere else if world.plan(old(tried)).Works? then Taken else Refused
      ensures files == if r.Taken? then Renamed(old(files), from, to) else old(files)
    {
      ghost var u := Now();
      NothingUnder(files, to);
      r := if world.crosses(from, to) then Elsewhere else if world.plan(tried).Works? then Taken else Refused;
      if r.Taken? {
        RenamedIsWellFormed(files, from, to);
        files := Renamed(files, from, to);
      }
      RecordedOn(u, files);
      tried, history := tried + 1, history + [files];
    }

    /** One file takes the name of another, which goes. */
    method RenameOver(from: Path, to: Path) returns (ok: bool)
      requires Valid() && from in files && files[from].File? && from != to
      requires from != [] && to != [] && IsFolder(files, Parent(to)) && Parent(from) == Parent(to)
      modifies this
      ensures Valid() && Now() == Stepped(old(Now()), files) && tried == old(tried) + 1
      ensures ok <==> world.plan(old(tried)).Works? && !IsFolder(old(files), to)
      ensures files == if ok then (old(files) - {from})[to := old(files)[from]] else old(files)
    {
      ok := world.plan(tried).Works? && !IsFolder(files, to);
      if ok {
        RenamedOverWellFormed(files, from, to);
        files := (files - {from})[to := files[from]];
      }
      tried, history := tried + 1, history + [files];
    }

    method RemoveFile(p: Path) returns (ok: bool)
      requires Valid() && p in files && files[p].File?
      modifies this
      ensures Valid() && Now() == Stepped(old(Now()), files) && tried == old(tried) + 1
      ensures ok == world.plan(old(tried)).Works?
      ensures files == if ok then old(files) - {p} else old(files)
    {
      ok := world.plan(tried).Works?;
      if ok {
        files := files - {p};
      }
      tried, history := tried + 1, history + [files];
    }

    /** Only an empty folder can be removed. */
    method RemoveDir(p: Path) returns (ok: bool)
      requires Valid() && IsFolder(files, p) && p != []
      modifies this
      ensures Valid() && Now() == Stepped(old(Now()), files) && tried == old(tried) + 1
      ensures ok <==> world.plan(old(tried)).Works? && forall q | q in old(files) && Under(q, p) :: q == p
      ensures files == if ok then old(files) - {p} else old(files)
    {
      var empty := forall q | q in files && Under(q, p) :: q == p;
      ok := world.plan(tried).Works? && empty;
      if ok {
        EmptyGoes(files, p);
        files := files - {p};
      }
      tried, history := tried + 1, history + [files];
    }

    /** A folder where there is nothing yet. */
    method MakeDir(p: Path) returns (ok: bool)
      requires Valid() && p != [] && p !in files && IsFolder(files, Parent(p))
      modifies this
      ensures Valid() && Now() == Stepped(old(Now()), files) && tried == old(tried) + 1
      ensures ok == world.plan(old(tried)).Works?
      ensures files == if ok then old(files)[p := Folder(0)] else old(files)
    {
      ok := world.plan(tried).Works?;
      if ok {
        files := files[p := Folder(0)];
      }
      tried, history := tried + 1, history + [files];
    }

    /** The names in a folder, in the order they are listed. */
    method ReadDir(p: Path) returns (names: Option<seq<Name>>)
      requires Valid() && IsFolder(files, p)
      modifies this`tried
      ensures Valid() && tried == old(tried) + 1 && names.Some? == world.plan(old(tried)).Works?
      ensures names.Some? ==> names.value == world.listing(p, ChildNames(files, p))
      ensures names.Some? ==> Distinct(names.value) && forall n :: n in names.value <==> p + [n] in files
    {
      var ok := world.plan(tried).Works?;
      tried := tried + 1;
      if !ok {
        return None;
      }
      ChildrenAreThere(files, p);
      assert Lists(world.listing, p, ChildNames(files, p));
      names := Some(world.listing(p, ChildNames(files, p)));
    }

    method Stay()
      requires Valid()
      modifies this
      ensures Valid() && Now() == Stepped(old(Now()), files) && tried == old(tried) + 1 && files == old(files)
    {
      tried, history := tried + 1, history + [files];
    }

    method PutFile(p: Path, content: int) returns (ok: bool)
      requires Valid() && p != [] && IsFolder(files, Parent(p))
      modifies this
      ensures Valid() && Now() == Stepped(old(Now()), files) && tried == old(tried) + 1
      ensures ok <==> !world.plan(old(tried)).Fails? && !IsFolder(old(files), p)
      ensures files == if ok then old(files)[p := File(content, old(tried))] else old(files)
    {
      ok := !world.plan(tried).Fails? && !IsFolder(files, p);
      if ok {
        FileWellFormed(files, p, File(content, tried));
        files := files[p := File(content, tried)];
      }
      tried, history := tried + 1, history + [files];
    }

    /** Writes a file: first something of it, then the rest. */
    method WriteFile(p: Path, content: int) returns (ok: bool, ghost mid: Files)
      requires Valid() && p != [] && IsFolder(files, Parent(p))
      modifies this
      ensures Valid() && Now() == Stepped(Stepped(old(Now()), mid), files) && tried == old(tried) + 2
      ensures Scribbled(old(files), mid, p) && Scribbled(mid, files, p)
      ensures ok ==> Holds(files, p, content)
      ensures world.NoFailure(old(tried)) && !IsFolder(old(files), p) ==> ok
    {
      ghost var a := files;
      ok := PutFile(p, world.scrap(tried));
      mid := files;
      StillAFolder(a, mid, p);
      if ok {
        ok := PutFile(p, content);
      } else {
        Stay();
      }
    }

    /** Copies a file onto a name that is free. What stands there then need not be
        what was copied. */
    method CopyFile(from: Path, to: Path) returns (ok: bool, ghost mid: Files)
      requires Valid() && from in files && files[from].File? && to !in files && to != [] && IsFolder(files, Parent(to))
      modifies this
      ensures Valid() && Now() == Stepped(Stepped(old(Now()), mid), files) && tried == old(tried) + 2
      ensures Scribbled(old(files), mid, to) && Scribbled(old(files), files, to)
      ensures ok ==> to in files && files[to].File?
      ensures world.NoFailure(old(tried)) ==> ok && Holds(files, to, old(files)[from].content)
    {
      ghost var a := files;
      var content := files[from].content;
      ok := PutFile(to, world.scrap(tried));
      mid := files;
      StillAFolder(a, mid, to);
      if ok {
        ok := PutFile(to, if world.plan(tried).Garbles? then world.scrap(tried) else content);
      } else {
        Stay();
      }
      Overwritten(a, mid, files, to);
    }

    /** Gives a file the time another has, if that works. */
    method SetModified(p: Path, modified: int)
      requires Valid() && p in files && files[p].File? && p != []
      modifies this
      ensures Valid() && Now() == Stepped(old(Now()), files) && tried == old(tried) + 1
      ensures p in files && files[p].File? && files[p].content == old(files)[p].content && files == old(files)[p := files[p]]
    {
      if world.plan(tried).Works? {
        ParentIsThere(files, p);
        FileWellFormed(files, p, files[p].(modified := modified));
        files := files[p := files[p].(modified := modified)];
      }
      tried, history := tried + 1, history + [files];
    }
  }
}
