/** On a directory in id order the lookup and the walk know the same entries. */
module DatLookup {
  import opened Wrappers
  import opened DatChain
  import opened DatNode
  import opened DatTree

  /** Nothing is missing or unreadable. */
  predicate Intact(t: Tree) {
    t.Whole? && forall i | 0 <= i < |t.kids| :: Intact(t.kids[i])
  }

  /** The entries under `t`, left to right. */
  function InOrder(t: Tree): seq<Entry>
    requires WellShaped(t) && Intact(t)
    decreases t, 1, 0
  {
    if t.node.IsLeaf() then t.node.files else InOrderFrom(t, 0)
  }

  function InOrderFrom(t: Tree, i: nat): seq<Entry>
    requires WellShaped(t) && Intact(t) && !t.node.IsLeaf() && i <= |t.node.files|
    decreases t, 0, |t.node.files| - i
  {
    InOrder(t.kids[i])
    + (if i < |t.node.files| then [t.node.files[i]] + InOrderFrom(t, i + 1) else [])
  }

  // ---- The walk of an intact directory -------------------------------------------

  lemma OksOfSum(a: seq<Entry>, b: seq<Entry>)
    ensures Oks(a + b) == Oks(a) + Oks(b)
  {
  }

  lemma {:induction false} WalkIsInOrder(t: Tree)
    requires WellShaped(t) && Intact(t)
    ensures Walk(t) == Oks(InOrder(t))
    decreases t, 1, 0
  {
    if !t.node.IsLeaf() {
      WalkFromIsInOrder(t, 0);
    }
  }

  lemma {:induction false} WalkFromIsInOrder(t: Tree, i: nat)
    requires WellShaped(t) && Intact(t) && !t.node.IsLeaf() && i <= |t.node.files|
    ensures WalkFrom(t, i) == Oks(InOrderFrom(t, i))
    decreases t, 0, |t.node.files| - i
  {
    WalkIsInOrder(t.kids[i]);
    if i < |t.node.files| {
      WalkFromIsInOrder(t, i + 1);
      OksOfSum([t.node.files[i]], InOrderFrom(t, i + 1));
      OksOfSum(InOrder(t.kids[i]), [t.node.files[i]] + InOrderFrom(t, i + 1));
    }
  }

  lemma {:induction false} CutOfOks(files: seq<Entry>)
    ensures Cut(Oks(files)) == Oks(files)
  {
    if files != [] {
      assert Oks(files)[1..] == Oks(files[1..]);
      CutOfOks(files[1..]);
    }
  }

  /** The explicit-stack walk of an intact directory yields exactly its entries
      in order, with no problem and nothing twice. */
  method Listing(dat: Dat, root: Node, ghost t: Tree) returns (steps: seq<Step>)
    requires dat.Valid() && Stands(dat, 0, dat.rootBlock, t) && WellShaped(t) && Intact(t) && t.node == root
    ensures steps == Oks(InOrder(t))
  {
    var entries := new Entries(dat, Some(root), t);
    steps := entries.Collect();
    WalkIsInOrder(t);
    CutOfOks(InOrder(t));
  }

  // ---- Order ------------------------------------------------------------------------

  lemma IncreasingParts(a: seq<Entry>, b: seq<Entry>)
    requires Increasing(a + b)
    ensures Increasing(a) && Increasing(b)
    ensures forall x, y | x in a && y in b :: x.id < y.id
  {
    var s := a + b;
    forall i, j | 0 <= i < j < |a| ensures a[i].id < a[j].id {
      assert s[i] == a[i] && s[j] == a[j];
    }
    forall i, j | 0 <= i < j < |b| ensures b[i].id < b[j].id {
      assert s[|a| + i] == b[i] && s[|a| + j] == b[j];
    }
    forall x, y | x in a && y in b ensures x.id < y.id {
      var i :| 0 <= i < |a| && a[i] == x;
      var j :| 0 <= j < |b| && b[j] == y;
      assert s[i] == x && s[|a| + j] == y;
    }
  }

  /** Where an entry of an inner node's list comes from. */
  ghost predicate ComesFrom(t: Tree, i: nat, e: Entry)
    requires WellShaped(t) && Intact(t) && !t.node.IsLeaf()
  {
    || (exists j :: i <= j < |t.kids| && e in InOrder(t.kids[j]))
    || (exists j :: i <= j < |t.node.files| && e == t.node.files[j])
  }

  lemma {:induction false} InOrderFromHolds(t: Tree, i: nat, e: Entry)
    requires WellShaped(t) && Intact(t) && !t.node.IsLeaf() && i <= |t.node.files|
    ensures e in InOrderFrom(t, i) <==> ComesFrom(t, i, e)
    decreases |t.node.files| - i
  {
    if i < |t.node.files| {
      InOrderFromHolds(t, i + 1, e);
      var rest := [t.node.files[i]] + InOrderFrom(t, i + 1);
      assert e in InOrderFrom(t, i) <==> e in InOrder(t.kids[i]) || e in rest;
      assert e in rest <==> e == t.node.files[i] || e in InOrderFrom(t, i + 1);
    }
  }

  /** An entry of child `j` lies on its side of entry `k`. */
  predicate OnItsSide(t: Tree, j: nat, k: nat, e: Entry)
    requires t.Whole? && k < |t.node.files|
  {
    if j <= k then e.id < t.node.files[k].id else t.node.files[k].id < e.id
  }

  ghost predicate KidsOrdered(t: Tree, i: nat)
    requires WellShaped(t) && Intact(t) && !t.node.IsLeaf()
  {
    forall j | i <= j < |t.kids| :: Increasing(InOrder(t.kids[j]))
  }

  ghost predicate FilesOrdered(t: Tree, i: nat)
    requires t.Whole?
  {
    forall j, k | i <= j < k < |t.node.files| :: t.node.files[j].id < t.node.files[k].id
  }

  ghost predicate KidsBetween(t: Tree, i: nat)
    requires WellShaped(t) && Intact(t) && !t.node.IsLeaf()
  {
    forall j: nat, k: nat, e {:trigger OnItsSide(t, j, k, e)}
      | i <= j < |t.kids| && i <= k < |t.node.files| && e in InOrder(t.kids[j]) :: OnItsSide(t, j, k, e)
  }

  ghost predicate Separated(t: Tree, i: nat)
    requires WellShaped(t) && Intact(t) && !t.node.IsLeaf()
  {
    KidsOrdered(t, i) && FilesOrdered(t, i) && KidsBetween(t, i)
  }

  lemma LastIsSeparated(t: Tree)
    requires WellShaped(t) && Intact(t) && !t.node.IsLeaf()
    requires Increasing(InOrderFrom(t, |t.node.files|))
    ensures Separated(t, |t.node.files|)
  {
    assert InOrderFrom(t, |t.node.files|) == InOrder(t.kids[|t.node.files|]);
  }

  lemma SeparatedStep(t: Tree, i: nat)
    requires WellShaped(t) && Intact(t) && !t.node.IsLeaf() && i < |t.node.files|
    requires Separated(t, i + 1)
    requires Increasing(InOrder(t.kids[i]) + ([t.node.files[i]] + InOrderFrom(t, i + 1)))
    ensures Separated(t, i)
  {
    IncreasingParts(InOrder(t.kids[i]), [t.node.files[i]] + InOrderFrom(t, i + 1));
    RestIsAbove(t, i);
    FirstIsBelow(t, i);
    FilesOrderedStep(t, i);
    KidsBetweenStep(t, i);
  }

  lemma {:induction false} OrderedIsSeparated(t: Tree, i: nat)
    requires WellShaped(t) && Intact(t) && !t.node.IsLeaf() && i <= |t.node.files|
    requires Increasing(InOrderFrom(t, i))
    ensures Separated(t, i)
    decreases |t.node.files| - i
  {
    if i < |t.node.files| {
      IncreasingParts(InOrder(t.kids[i]), [t.node.files[i]] + InOrderFrom(t, i + 1));
      IncreasingParts([t.node.files[i]], InOrderFrom(t, i + 1));
      OrderedIsSeparated(t, i + 1);
      SeparatedStep(t, i);
    } else {
      LastIsSeparated(t);
    }
  }

  lemma RestIsAbove(t: Tree, i: nat)
    requires WellShaped(t) && Intact(t) && !t.node.IsLeaf() && i < |t.node.files|
    requires Increasing([t.node.files[i]] + InOrderFrom(t, i + 1))
    ensures forall e | ComesFrom(t, i + 1, e) :: t.node.files[i].id < e.id
  {
    IncreasingParts([t.node.files[i]], InOrderFrom(t, i + 1));
    assert t.node.files[i] in [t.node.files[i]];
    forall e | ComesFrom(t, i + 1, e) ensures t.node.files[i].id < e.id {
      InOrderFromHolds(t, i + 1, e);
    }
  }

  lemma FirstIsBelow(t: Tree, i: nat)
    requires WellShaped(t) && Intact(t) && !t.node.IsLeaf() && i < |t.node.files|
    requires Increasing(InOrder(t.kids[i]) + ([t.node.files[i]] + InOrderFrom(t, i + 1)))
    ensures forall e | e in InOrder(t.kids[i]) :: e.id < t.node.files[i].id
  {
    var rest := [t.node.files[i]] + InOrderFrom(t, i + 1);
    IncreasingParts(InOrder(t.kids[i]), rest);
    assert rest[0] in rest;
  }

  lemma FilesOrderedStep(t: Tree, i: nat)
    requires WellShaped(t) && Intact(t) && !t.node.IsLeaf() && i < |t.node.files|
    requires FilesOrdered(t, i + 1)
    requires forall e | ComesFrom(t, i + 1, e) :: t.node.files[i].id < e.id
    ensures FilesOrdered(t, i)
  {
    forall k | i < k < |t.node.files| ensures t.node.files[i].id < t.node.files[k].id {
      assert ComesFrom(t, i + 1, t.node.files[k]);
    }
  }

  lemma KidsBetweenStep(t: Tree, i: nat)
    requires WellShaped(t) && Intact(t) && !t.node.IsLeaf() && i < |t.node.files|
    requires KidsBetween(t, i + 1) && FilesOrdered(t, i)
    requires forall e | e in InOrder(t.kids[i]) :: e.id < t.node.files[i].id
    requires forall e | ComesFrom(t, i + 1, e) :: t.node.files[i].id < e.id
    ensures KidsBetween(t, i)
  {
    forall j: nat, k: nat, e | i <= j < |t.kids| && i <= k < |t.node.files| && e in InOrder(t.kids[j])
      ensures OnItsSide(t, j, k, e)
    {
      if j > i && k == i {
        assert ComesFrom(t, i + 1, e);
      }
    }
  }

  // ---- Order, node by node -------------------------------------------------------------

  predicate Within(files: seq<Entry>, low: int, high: int) {
    forall i | 0 <= i < |files| :: low < files[i].id < high
  }

  /** The smallest and largest id that may stand under child `i`, not included. */
  function LowOf(t: Tree, i: nat, low: int): int
    requires t.Whole? && i <= |t.node.files|
  {
    if i == 0 then low else t.node.files[i - 1].id
  }

  function HighOf(t: Tree, i: nat, high: int): int
    requires t.Whole? && i <= |t.node.files|
  {
    if i == |t.node.files| then high else t.node.files[i].id
  }

  /** Every node's entries are sorted, and each child lies between the entries
      around it. */
  predicate Ordered(t: Tree, low: int, high: int)
    requires WellShaped(t) && Intact(t)
    decreases t
  {
    && Increasing(t.node.files) && Within(t.node.files, low, high)
    && (!t.node.IsLeaf() ==> forall i | 0 <= i < |t.kids| :: Ordered(t.kids[i], LowOf(t, i, low), HighOf(t, i, high)))
  }

  lemma JoinIncreasing(a: seq<Entry>, e: Entry, b: seq<Entry>)
    requires Increasing(a) && Increasing(b)
    requires (forall x | x in a :: x.id < e.id) && (forall x | x in b :: e.id < x.id)
    ensures Increasing(a + ([e] + b))
  {
    var s := a + ([e] + b);
    forall i, j | 0 <= i < j < |s| ensures s[i].id < s[j].id {
      assert i < |a| ==> s[i] == a[i] && a[i] in a;
      assert j < |a| ==> s[j] == a[j];
      assert i > |a| ==> s[i] == b[i - |a| - 1];
      assert j > |a| ==> s[j] == b[j - |a| - 1] && b[j - |a| - 1] in b;
    }
  }

  /** The listing of a directory ordered node by node is strictly increasing. */
  lemma {:induction false} OrderedIncreases(t: Tree, low: int, high: int)
    requires WellShaped(t) && Intact(t) && Ordered(t, low, high)
    ensures Increasing(InOrder(t)) && forall e | e in InOrder(t) :: low < e.id < high
    decreases t, 1, 0
  {
    if !t.node.IsLeaf() {
      OrderedFromIncreases(t, 0, low, high);
    }
  }

  lemma {:induction false} OrderedFromIncreases(t: Tree, i: nat, low: int, high: int)
    requires WellShaped(t) && Intact(t) && Ordered(t, low, high) && !t.node.IsLeaf() && i <= |t.node.files|
    ensures Increasing(InOrderFrom(t, i)) && forall e | e in InOrderFrom(t, i) :: LowOf(t, i, low) < e.id < high
    decreases t, 0, |t.node.files| - i
  {
    OrderedIncreases(t.kids[i], LowOf(t, i, low), HighOf(t, i, high));
    if i < |t.node.files| {
      OrderedFromIncreases(t, i + 1, low, high);
      JoinIncreasing(InOrder(t.kids[i]), t.node.files[i], InOrderFrom(t, i + 1));
    }
  }

  /** And only of such a directory. */
  lemma {:induction false} IncreasingIsOrdered(t: Tree, low: int, high: int)
    requires WellShaped(t) && Intact(t)
    requires Increasing(InOrder(t)) && forall e | e in InOrder(t) :: low < e.id < high
    ensures Ordered(t, low, high)
    decreases t
  {
    var files := t.node.files;
    if !t.node.IsLeaf() {
      OrderedIsSeparated(t, 0);
      forall i | 0 <= i < |files| ensures low < files[i].id < high {
        InOrderFromHolds(t, 0, files[i]);
      }
      forall i | 0 <= i < |t.kids| ensures Ordered(t.kids[i], LowOf(t, i, low), HighOf(t, i, high)) {
        KidIsBetween(t, i, low, high);
        IncreasingIsOrdered(t.kids[i], LowOf(t, i, low), HighOf(t, i, high));
      }
    }
  }

  lemma KidIsBetween(t: Tree, i: nat, low: int, high: int)
    requires WellShaped(t) && Intact(t) && !t.node.IsLeaf() && i < |t.kids| && KidsBetween(t, 0)
    requires forall e | e in InOrder(t) :: low < e.id < high
    ensures forall e | e in InOrder(t.kids[i]) :: LowOf(t, i, low) < e.id < HighOf(t, i, high)
  {
    forall e | e in InOrder(t.kids[i]) ensures LowOf(t, i, low) < e.id < HighOf(t, i, high) {
      InOrderFromHolds(t, 0, e);
      assert i > 0 ==> OnItsSide(t, i, i - 1, e);
      assert i < |t.node.files| ==> OnItsSide(t, i, i, e);
    }
  }

  const LEAST := -1
  const MOST := 0x1_0000_0000

  /** A walk's listing is strictly increasing exactly when every node is sorted and its
      children lie between its entries. */
  lemma OrderedIffIncreasing(t: Tree)
    requires WellShaped(t) && Intact(t)
    ensures Ordered(t, LEAST, MOST) <==> Increasing(InOrder(t))
  {
    if Ordered(t, LEAST, MOST) {
      OrderedIncreases(t, LEAST, MOST);
    }
    if Increasing(InOrder(t)) {
      IncreasingIsOrdered(t, LEAST, MOST);
    }
  }

  // ---- Lookup and walk ------------------------------------------------------------------

  /** An id the search misses at child `c` is under that child or nowhere. */
  lemma MissedIsBelow(t: Tree, id: int, c: nat, e: Entry)
    requires WellShaped(t) && Intact(t) && !t.node.IsLeaf() && KidsBetween(t, 0)
    requires c < |t.kids| && IsLowerBound(t.node.files, id, c)
    requires ComesFrom(t, 0, e) && e.id == id
    ensures e in InOrder(t.kids[c])
  {
    var j: nat :| j < |t.kids| && e in InOrder(t.kids[j]);
    assert j < c ==> OnItsSide(t, j, j, e);
    assert j > c ==> OnItsSide(t, j, c, e);
  }

  /** `r` is what the entries `all` have under `id`. */
  predicate AnswersFrom(all: seq<Entry>, id: int, r: Result<Option<Entry>, DatError>) {
    match r
    case Ok(Some(e)) => e in all && e.id == id
    case Ok(None) => forall e | e in all :: e.id != id
    case Err(_) => false
  }

  /** On an intact directory in id order a lookup finds an entry exactly when
      the walk yields one with that id, and it finds that one. */
  lemma {:induction false} FindAnswersWalk(t: Tree, id: nat)
    requires WellShaped(t) && Searchable(t) && Intact(t) && Increasing(InOrder(t))
    ensures AnswersFrom(InOrder(t), id, Find(t, id))
    decreases t
  {
    var files := t.node.files;
    if t.node.IsLeaf() {
      if files != [] {
        SearchDecides(files, id);
      }
    } else {
      OrderedIsSeparated(t, 0);
      SearchDecides(files, id);
      match Search(files, id)
      case Found(index) =>
        InOrderFromHolds(t, 0, files[index]);
      case Missing(c) =>
        FindAnswersWalk(t.kids[c], id);
        forall e | e in InOrder(t) && e.id == id ensures e in InOrder(t.kids[c]) {
          InOrderFromHolds(t, 0, e);
          MissedIsBelow(t, id, c, e);
        }
        forall e | e in InOrder(t.kids[c]) ensures e in InOrder(t) {
          InOrderFromHolds(t, 0, e);
        }
    }
  }

  /** On an intact directory ordered node by node a lookup finds an entry exactly when
      the walk yields one with that id, and it finds that one. */
  lemma FindAnswersOrdered(t: Tree, id: nat)
    requires WellShaped(t) && Searchable(t) && Intact(t) && Ordered(t, LEAST, MOST)
    ensures AnswersFrom(InOrder(t), id, Find(t, id))
  {
    OrderedIncreases(t, LEAST, MOST);
    FindAnswersWalk(t, id);
  }
}
