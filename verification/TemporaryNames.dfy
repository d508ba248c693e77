/** The name a file is copied under before it takes its own: the name with `.copying`
    at its end. Such a name is never one a file got by stepping aside for another. */
module TemporaryNames {
  import opened Wrappers
  import opened Numerals
  import opened DiskModel
  import opened BesideNames

  const SUFFIX := ".copying"

  predicate IsTemporary(name: Name) {
    |name| >= |SUFFIX| && name[|name| - |SUFFIX|..] == SUFFIX
  }

  /** A path whose own name is not a temporary one. */
  predicate Real(p: Path) {
    p != [] ==> !IsTemporary(p[|p| - 1])
  }

  function Temp(p: Path): (r: Path)
    requires p != []
    ensures |r| == |p| && Parent(r) == Parent(p) && !Real(r) && r != p
  {
    TempIsTemporary(p[|p| - 1]);
    Parent(p) + [p[|p| - 1] + SUFFIX]
  }

  lemma TempIsTemporary(name: Name)
    ensures IsTemporary(name + SUFFIX) && name + SUFFIX != name
  {
    assert (name + SUFFIX)[|name|..] == SUFFIX;
    assert |name + SUFFIX| > |name|;
  }

  lemma TempOfChild(dst: Path, n: Name)
    ensures Temp(dst + [n]) == dst + [n + SUFFIX]
  {
    assert Parent(dst + [n]) == dst;
  }

  // ---- Stepping aside ---------------------------------------------------------------

  /** An extension begins with the last dot of the name. */
  lemma {:induction false} DotIsLast(name: Name, k: nat)
    requires k <= |name| && forall i | k <= i < |name| :: name[i] != '.'
    ensures
      var r := DotFrom(name, k);
      r < |name| ==> name[r] == '.' && forall i | r < i < |name| :: name[i] != '.'
    decreases k
  {
    if k > 1 && name[k - 1] != '.' {
      DotIsLast(name, k - 1);
    }
  }

  lemma LastCharOfMark(n: nat)
    requires n >= 1
    ensures var m := Mark(n); m != "" && (m[|m| - 1] == 'd' || IsDigit(m[|m| - 1]))
  {
    if n > 1 {
      DecimalReadsBack(n);
      var d := Decimal(n);
      assert Mark(n)[|Mark(n)| - 1] == d[|d| - 1];
    }
  }

  lemma LastOfTemporary(name: Name)
    ensures name == "" || name[|name| - 1] != 'g' ==> !IsTemporary(name)
  {
    if |name| >= |SUFFIX| {
      assert name[|name| - |SUFFIX|..][|SUFFIX| - 1] == name[|name| - 1];
    }
  }

  lemma BesideIsReal(name: Name, n: nat)
    requires n >= 1 && !IsTemporary(name)
    ensures !IsTemporary(Beside(name, n))
  {
    var ext := Extension(name);
    var all := Beside(name, n);
    assert name == Stem(name) + ext;
    if ext == "" {
      LastCharOfMark(n);
      LastOfTemporary(all);
      assert all[|all| - 1] == Mark(n)[|Mark(n)| - 1];
    } else {
      DotIsLast(name, |name|);
      assert ext[0] == '.' && forall i | 0 < i < |ext| :: ext[i] != '.';
      DotMarksExtension(Stem(name) + Mark(n), ext);
      assert name[|name| - |ext|..] == ext;
    }
  }

  lemma DotMarksExtension(front: string, ext: string)
    requires ext != "" && ext[0] == '.' && forall i | 0 < i < |ext| :: ext[i] != '.'
    ensures ext != SUFFIX ==> !IsTemporary(front + ext)
  {
    var all := front + ext;
    if |all| >= |SUFFIX| {
      var tail := all[|all| - |SUFFIX|..];
      assert SUFFIX[0] == '.' && forall i | 0 < i < |SUFFIX| :: SUFFIX[i] != '.';
      if |ext| > |SUFFIX| {
        assert tail[0] == ext[|ext| - |SUFFIX|];
      } else if |ext| < |SUFFIX| {
        assert tail[|SUFFIX| - |ext|] == ext[0];
      } else {
        assert tail == ext;
      }
    }
  }

  lemma {:induction false} BesidesAreReal(p: Path, ns: seq<nat>)
    requires Real(p)
    ensures Real(Besides(p, ns))
    decreases |ns|
  {
    if p != [] && ns != [] {
      BesidesAreReal(p, ns[..|ns| - 1]);
      BesidesStep(p, ns);
      var q := Besides(p, ns[..|ns| - 1]);
      BesideIsReal(q[|q| - 1], ns[|ns| - 1] + 1);
    }
  }

  /** Stepping aside never makes a temporary name of a real one. */
  lemma NearIsReal(q: Path, p: Path)
    requires Near(q, p) && Real(p)
    ensures Real(q)
  {
    var ns :| q == Besides(p, ns);
    BesidesAreReal(p, ns);
  }
}
