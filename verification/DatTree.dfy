/** A directory as a tree standing on the disk: the recursive walk and search are
    what it means, the explicit stack and the descending loop are what runs. */
module DatTree {
  import opened Wrappers
  import opened Bytes
  import opened DatChain
  import opened DatNode

  function ReadNode(dat: Dat, offset: int): Result<Node, DatError>
    requires dat.Valid()
  {
    match ReadChain(dat, offset, DISK_SIZE)
    case Err(e) => Err(e)
    case Ok(bytes) => Unpack(offset, bytes)
  }

  /** What hangs under a branch slot: a node with what hangs under it, a node
      that cannot be read, or no node at all. */
  datatype Tree =
    | Whole(node: Node, kids: seq<Tree>)
    | Unreadable(error: DatError)
    | Absent(parent: int, child: int)

  /** `t` is what `dat` holds at `offset`, a branch of the node at `parent`. A
      directory that loops has no such tree. */
  ghost predicate Stands(dat: Dat, parent: int, offset: int, t: Tree)
    requires dat.Valid()
    decreases t
  {
    match t
    case Absent(p, c) => !IsValidOffset(offset) && p == parent && c == offset
    case Unreadable(e) => IsValidOffset(offset) && ReadNode(dat, offset) == Err(e)
    case Whole(node, kids) =>
      && IsValidOffset(offset) && ReadNode(dat, offset) == Ok(node)
      && (node.IsLeaf() ==> kids == [])
      && (!node.IsLeaf() ==>
            && |kids| == |node.files| + 1
            && forall i | 0 <= i < |kids| :: Stands(dat, node.offset, node.Child(i), kids[i]))
  }

  /** The parts `Stands` gives for the branches of an inner node. */
  predicate Shaped(t: Tree) {
    t.Whole? ==> if t.node.IsLeaf() then t.kids == [] else |t.kids| == |t.node.files| + 1
  }

  predicate WellShaped(t: Tree) {
    Shaped(t) && (t.Whole? ==> forall i | 0 <= i < |t.kids| :: WellShaped(t.kids[i]))
  }

  lemma {:induction false} StandingIsShaped(dat: Dat, parent: int, offset: int, t: Tree)
    requires dat.Valid() && Stands(dat, parent, offset, t)
    ensures WellShaped(t)
    decreases t
  {
    if t.Whole? {
      forall i | 0 <= i < |t.kids| ensures WellShaped(t.kids[i]) {
        StandingIsShaped(dat, t.node.offset, t.node.Child(i), t.kids[i]);
      }
    }
  }

  /** `t` stands somewhere in `dat`. */
  ghost predicate Planted(dat: Dat, t: Tree)
    requires dat.Valid()
  {
    exists parent, offset :: Stands(dat, parent, offset, t)
  }

  // ---- The walk ----------------------------------------------------------------

  type Step = Result<Entry, DatError>

  function Oks(files: seq<Entry>): (r: seq<Step>)
    ensures |r| == |files|
  {
    seq(|files|, i requires 0 <= i < |files| => Ok(files[i]))
  }

  /** Everything under `t` in id order, problems in the place they are met. */
  function Walk(t: Tree): seq<Step>
    requires WellShaped(t)
    decreases t, 1, 0
  {
    match t
    case Absent(parent, child) => [Err(BadChild(parent, child))]
    case Unreadable(e) => [Err(e)]
    case Whole(node, kids) => if node.IsLeaf() then Oks(node.files) else WalkFrom(t, 0)
  }

  /** From child `i` of an inner node on: the child, entry `i`, the next child. */
  function WalkFrom(t: Tree, i: nat): seq<Step>
    requires WellShaped(t) && t.Whole? && !t.node.IsLeaf() && i <= |t.node.files|
    decreases t, 0, |t.node.files| - i
  {
    Walk(t.kids[i])
    + (if i < |t.node.files| then [Ok(t.node.files[i])] + WalkFrom(t, i + 1) else [])
  }

  /** The walk stops after the first problem. */
  function Cut(steps: seq<Step>): seq<Step> {
    if steps == [] then []
    else if steps[0].Err? then [steps[0]]
    else [steps[0]] + Cut(steps[1..])
  }

  // ---- The walk as it runs ---------------------------------------------------------

  /** A node part-way through: the next entry to yield, and whether the child
      before it has been walked. */
  datatype Frame = Frame(node: Node, next: nat, descended: bool)

  predicate FrameOf(f: Frame, t: Tree) {
    WellShaped(t) && t.Whole? && t.node == f.node && f.next <= |f.node.files|
  }

  /** What one frame still has to yield. */
  function Left(f: Frame, t: Tree): seq<Step>
    requires FrameOf(f, t)
  {
    if f.node.IsLeaf() then Oks(f.node.files[f.next..])
    else if !f.descended then WalkFrom(t, f.next)
    else if f.next < |f.node.files| then [Ok(f.node.files[f.next])] + WalkFrom(t, f.next + 1)
    else []
  }

  predicate FramesOf(stack: seq<Frame>, trees: seq<Tree>) {
    |trees| == |stack| && forall i | 0 <= i < |stack| :: FrameOf(stack[i], trees[i])
  }

  ghost predicate AllPlanted(dat: Dat, trees: seq<Tree>)
    requires dat.Valid()
  {
    forall i | 0 <= i < |trees| :: Planted(dat, trees[i])
  }

  /** What the whole stack, its top last, still has to yield. */
  function Remaining(stack: seq<Frame>, trees: seq<Tree>): seq<Step>
    requires FramesOf(stack, trees)
    decreases |stack|
  {
    if stack == [] then []
    else
      var top := |stack| - 1;
      Left(stack[top], trees[top]) + Remaining(stack[..top], trees[..top])
  }

  /** How many turns of the loop a tree takes. */
  function Turns(t: Tree): nat
    requires WellShaped(t)
    decreases t, 1, 0
  {
    if !t.Whole? then 1
    else if t.node.IsLeaf() then 1 + |t.node.files|
    else 1 + TurnsFrom(t, 0)
  }

  function TurnsFrom(t: Tree, i: nat): nat
    requires WellShaped(t) && t.Whole? && !t.node.IsLeaf() && i <= |t.node.files|
    decreases t, 0, |t.node.files| - i
  {
    1 + Turns(t.kids[i]) + (if i < |t.node.files| then 1 + TurnsFrom(t, i + 1) else 0)
  }

  function TurnsLeft(f: Frame, t: Tree): nat
    requires FrameOf(f, t)
  {
    if f.node.IsLeaf() then 1 + |f.node.files| - f.next
    else if !f.descended then 1 + TurnsFrom(t, f.next)
    else if f.next < |f.node.files| then 2 + TurnsFrom(t, f.next + 1)
    else 1
  }

  function StackTurns(stack: seq<Frame>, trees: seq<Tree>): nat
    requires FramesOf(stack, trees)
    decreases |stack|
  {
    if stack == [] then 0
    else
      var top := |stack| - 1;
      TurnsLeft(stack[top], trees[top]) + StackTurns(stack[..top], trees[..top])
  }

  /** The top frame of a stack, set apart. */
  lemma TopFrame(dat: Dat, stack: seq<Frame>, trees: seq<Tree>, f: Frame, t: Tree)
    requires dat.Valid() && AllPlanted(dat, trees) && Planted(dat, t)
    requires FramesOf(stack, trees) && FrameOf(f, t)
    ensures AllPlanted(dat, trees + [t])
    ensures FramesOf(stack + [f], trees + [t])
    ensures Remaining(stack + [f], trees + [t]) == Left(f, t) + Remaining(stack, trees)
    ensures StackTurns(stack + [f], trees + [t]) == TurnsLeft(f, t) + StackTurns(stack, trees)
  {
    assert (stack + [f])[..|stack|] == stack && (trees + [t])[..|trees|] == trees;
  }

  /** Going down to a child leaves the same entries to come. */
  lemma DescendKeepsLeft(f: Frame, t: Tree)
    requires FrameOf(f, t) && !f.node.IsLeaf() && !f.descended
    ensures FrameOf(f.(descended := true), t)
    ensures Left(f, t) == Walk(t.kids[f.next]) + Left(f.(descended := true), t)
    ensures TurnsLeft(f, t) == 1 + Turns(t.kids[f.next]) + TurnsLeft(f.(descended := true), t)
  {
  }

  lemma FreshFrameWalks(t: Tree)
    requires WellShaped(t) && t.Whole?
    ensures FrameOf(Frame(t.node, 0, false), t)
    ensures Left(Frame(t.node, 0, false), t) == Walk(t)
    ensures TurnsLeft(Frame(t.node, 0, false), t) == Turns(t)
  {
    assert t.node.files[0..] == t.node.files;
  }

  lemma YieldShortensLeft(f: Frame, t: Tree)
    requires FrameOf(f, t) && (f.node.IsLeaf() || f.descended) && f.next < |f.node.files|
    ensures FrameOf(Frame(f.node, f.next + 1, false), t)
    ensures Left(f, t) == [Ok(f.node.files[f.next])] + Left(Frame(f.node, f.next + 1, false), t)
  {
    if f.node.IsLeaf() {
      assert f.node.files[f.next..] == [f.node.files[f.next]] + f.node.files[f.next + 1..];
    }
  }

  lemma SpentFrameIsEmpty(f: Frame, t: Tree)
    requires FrameOf(f, t) && (f.node.IsLeaf() || f.descended) && f.next == |f.node.files|
    ensures Left(f, t) == [] && TurnsLeft(f, t) >= 1
  {
  }

  lemma WholeWalk(dat: Dat, t: Tree)
    requires dat.Valid() && WellShaped(t) && t.Whole? && Planted(dat, t)
    ensures FramesOf([Frame(t.node, 0, false)], [t]) && AllPlanted(dat, [t])
    ensures Remaining([Frame(t.node, 0, false)], [t]) == Walk(t)
  {
    var f := Frame(t.node, 0, false);
    FreshFrameWalks(t);
    TopFrame(dat, [], [], f, t);
    assert [] + [f] == [f] && [] + [t] == [t];
    assert Walk(t) + [] == Walk(t);
  }

  lemma Regroup(a: seq<Step>, b: seq<Step>, c: seq<Step>)
    ensures a + b + c == a + (b + c)
  {
  }

  /** The stack after going down from `f` to `kid`. */
  lemma DescendedStack(dat: Dat, below: seq<Frame>, under: seq<Tree>, f: Frame, t: Tree, kid: Tree)
    requires dat.Valid() && AllPlanted(dat, under) && Planted(dat, t) && Planted(dat, kid)
    requires FramesOf(below, under) && FrameOf(f, t) && !f.node.IsLeaf() && !f.descended
    requires kid == t.kids[f.next] && kid.Whole?
    ensures
      var stack, trees := below + [f.(descended := true)] + [Frame(kid.node, 0, false)], under + [t] + [kid];
      && FramesOf(stack, trees) && AllPlanted(dat, trees)
      && Remaining(stack, trees) == Left(f, t) + Remaining(below, under)
      && StackTurns(stack, trees) < TurnsLeft(f, t) + StackTurns(below, under)
  {
    var descended := f.(descended := true);
    DescendKeepsLeft(f, t);
    FreshFrameWalks(kid);
    TopFrame(dat, below, under, descended, t);
    TopFrame(dat, below + [descended], under + [t], Frame(kid.node, 0, false), kid);
    Regroup(Walk(kid), Left(descended, t), Remaining(below, under));
  }

  /** The stack after yielding from `f`. */
  lemma YieldedStack(dat: Dat, below: seq<Frame>, under: seq<Tree>, f: Frame, t: Tree)
    requires dat.Valid() && AllPlanted(dat, under) && Planted(dat, t)
    requires FramesOf(below, under) && FrameOf(f, t)
    requires (f.node.IsLeaf() || f.descended) && f.next < |f.node.files|
    ensures
      var stack, trees := below + [Frame(f.node, f.next + 1, false)], under + [t];
      && FramesOf(stack, trees) && AllPlanted(dat, trees)
      && Left(f, t) + Remaining(below, under) == [Ok(f.node.files[f.next])] + Remaining(stack, trees)
  {
    var after := Frame(f.node, f.next + 1, false);
    YieldShortensLeft(f, t);
    TopFrame(dat, below, under, after, t);
    Regroup([Ok(f.node.files[f.next])], Left(after, t), Remaining(below, under));
  }

  /** A problem met below the top frame is the next step of the walk. */
  lemma ProblemIsNext(f: Frame, t: Tree, rest: seq<Step>)
    requires FrameOf(f, t) && !f.node.IsLeaf() && !f.descended && !t.kids[f.next].Whole?
    ensures Walk(t.kids[f.next]) != [] && Walk(t.kids[f.next])[0].Err?
    ensures (Left(f, t) + rest) != [] && (Left(f, t) + rest)[0] == Walk(t.kids[f.next])[0]
  {
  }

  class Entries {
    const dat: Dat
    var stack: seq<Frame>
    ghost var trees: seq<Tree>

    ghost predicate Valid()
      reads this
    {
      && dat.Valid()
      && FramesOf(stack, trees)
      && AllPlanted(dat, trees)
    }

    ghost function ToCome(): seq<Step>
      requires Valid()
      reads this
    {
      Remaining(stack, trees)
    }

    ghost function TurnsToGo(): nat
      requires Valid()
      reads this
    {
      StackTurns(stack, trees)
    }

    /** The walk of a whole directory, the root read already (none: empty). */
    constructor (dat: Dat, root: Option<Node>, ghost t: Tree)
      requires dat.Valid() && WellShaped(t)
      requires root.Some? ==> t.Whole? && t.node == root.value && Stands(dat, 0, dat.rootBlock, t)
      ensures Valid()
      ensures ToCome() == if root.Some? then Walk(t) else []
    {
      this.dat := dat;
      stack := if root.Some? then [Frame(root.value, 0, false)] else [];
      trees := if root.Some? then [t] else [];
      new;
      if root.Some? {
        WholeWalk(dat, t);
      }
    }

    /** The stack taken apart: the top frame and what is below it. */
    lemma Apart()
      requires Valid() && stack != []
      ensures
        var last := |stack| - 1;
        && FramesOf(stack[..last], trees[..last]) && FrameOf(stack[last], trees[last])
        && ToCome() == Left(stack[last], trees[last]) + Remaining(stack[..last], trees[..last])
        && TurnsToGo() == TurnsLeft(stack[last], trees[last]) + StackTurns(stack[..last], trees[..last])
    {
    }

    /** Go down to the child before the next entry, or meet a problem there. */
    method Descend() returns (problem: Option<DatError>)
      requires Valid() && stack != []
      requires !stack[|stack| - 1].node.IsLeaf() && !stack[|stack| - 1].descended
      modifies this
      ensures Valid()
      ensures problem.None? ==> ToCome() == old(ToCome()) && TurnsToGo() < old(TurnsToGo())
      ensures problem.Some? ==> stack == [] && old(ToCome()) != [] && old(ToCome())[0] == Err(problem.value)
    {
      Apart();
      var last := |stack| - 1;
      var top, below := stack[last], stack[..last];
      ghost var t, under := trees[last], trees[..last];
      assert Planted(dat, t);
      ghost var kid := t.kids[top.next];
      var child := top.node.Child(top.next);
      assert Stands(dat, t.node.offset, child, kid);
      if !IsValidOffset(child) {
        ProblemIsNext(top, t, Remaining(below, under));
        stack, trees := [], [];
        return Some(BadChild(top.node.offset, child));
      }
      var node := ReadNode(dat, child);
      if node.Err? {
        ProblemIsNext(top, t, Remaining(below, under));
        stack, trees := [], [];
        return Some(node.error);
      }
      assert Planted(dat, kid);
      DescendedStack(dat, below, under, top, t, kid);
      stack := below + [top.(descended := true)] + [Frame(node.value, 0, false)];
      trees := under + [t] + [kid];
      problem := None;
    }

    /** Yield the next entry of the top frame. */
    method Yield() returns (entry: Entry)
      requires Valid() && stack != []
      requires stack[|stack| - 1].node.IsLeaf() || stack[|stack| - 1].descended
      requires stack[|stack| - 1].next < |stack[|stack| - 1].node.files|
      modifies this
      ensures Valid()
      ensures old(ToCome()) == [Ok(entry)] + ToCome()
    {
      Apart();
      var last := |stack| - 1;
      var top, below := stack[last], stack[..last];
      ghost var t, under := trees[last], trees[..last];
      YieldedStack(dat, below, under, top, t);
      entry := top.node.files[top.next];
      stack, trees := below + [Frame(top.node, top.next + 1, false)], under + [t];
    }

    /** Leave a node whose entries have all been yielded. */
    method Leave()
      requires Valid() && stack != []
      requires stack[|stack| - 1].node.IsLeaf() || stack[|stack| - 1].descended
      requires stack[|stack| - 1].next == |stack[|stack| - 1].node.files|
      modifies this
      ensures Valid() && ToCome() == old(ToCome()) && TurnsToGo() < old(TurnsToGo())
    {
      Apart();
      var last := |stack| - 1;
      SpentFrameIsEmpty(stack[last], trees[last]);
      assert [] + Remaining(stack[..last], trees[..last]) == Remaining(stack[..last], trees[..last]);
      stack, trees := stack[..last], trees[..last];
    }

    /** The next entry, the problem that ends the walk, or the end. */
    method Next() returns (r: Option<Step>)
      requires Valid()
      modifies this
      ensures Valid()
      ensures r.None? <==> old(ToCome()) == []
      ensures r.Some? ==> r.value == old(ToCome())[0]
      ensures r.Some? && r.value.Ok? ==> ToCome() == old(ToCome())[1..]
      ensures r.None? || r.value.Err? ==> stack == []
    {
      while stack != []
        invariant Valid() && ToCome() == old(ToCome())
        decreases TurnsToGo()
      {
        var top := stack[|stack| - 1];
        assert FrameOf(top, trees[|stack| - 1]);
        if !top.node.IsLeaf() && !top.descended {
          var problem := Descend();
          if problem.Some? {
            return Some(Err(problem.value));
          }
        } else if top.next < |top.node.files| {
          var entry := Yield();
          return Some(Ok(entry));
        } else {
          Leave();
        }
      }
      r := None;
    }

    /** The whole walk. */
    method Collect() returns (steps: seq<Step>)
      requires Valid()
      modifies this
      ensures steps == Cut(old(ToCome()))
    {
      steps := [];
      ghost var all := ToCome();
      assert [] + Cut(all) == Cut(all);
      while true
        invariant Valid() && Cut(all) == steps + Cut(ToCome())
        decreases |ToCome()|
      {
        ghost var before, so := ToCome(), steps;
        var step := Next();
        if step.None? {
          return;
        }
        steps := steps + [step.value];
        if step.value.Err? {
          return;
        }
        CutStep(so, before);
      }
    }
  }

  lemma CutStep(so: seq<Step>, before: seq<Step>)
    requires before != [] && before[0].Ok?
    ensures so + Cut(before) == so + [before[0]] + Cut(before[1..])
  {
  }

  // ---- Lookup ------------------------------------------------------------------------

  /** Every inner node has an entry: an empty one would be walked at its first
      child and searched at its second. */
  predicate Searchable(t: Tree) {
    t.Whole? && !t.node.IsLeaf() ==>
      t.node.files != [] && forall i | 0 <= i < |t.kids| :: Searchable(t.kids[i])
  }

  lemma {:induction false} MissIsAChild(files: seq<Entry>, id: int, left: nat, right: int, i: nat)
    requires -1 <= right < |files| && left <= right + 1 && i < |files|
    ensures
      match SearchBetween(files, id, left, right, i)
      case Found(index) => index < |files|
      case Missing(child) => child <= |files|
    decreases right + 1 - left
  {
    if left <= right {
      var mid := (left + right) / 2;
      if id < files[mid].id {
        MissIsAChild(files, id, left, mid - 1, mid);
      } else if id > files[mid].id {
        MissIsAChild(files, id, mid + 1, right, mid);
      }
    }
  }

  lemma SearchStaysInside(files: seq<Entry>, id: int)
    requires files != []
    ensures match Search(files, id) case Found(index) => index < |files| case Missing(child) => child <= |files|
  {
    MissIsAChild(files, id, 0, |files| - 1, 0);
  }

  lemma FoundIsInside(files: seq<Entry>, id: int)
    ensures match Search(files, id) case Found(index) => index < |files| case Missing(_) => true
  {
    if files != [] {
      SearchStaysInside(files, id);
    }
  }

  /** What a lookup of `id` under `t` answers. */
  function Find(t: Tree, id: int): Result<Option<Entry>, DatError>
    requires WellShaped(t) && Searchable(t)
    decreases t
  {
    match t
    case Absent(_, _) => Ok(None)
    case Unreadable(e) => Err(e)
    case Whole(node, kids) =>
      FoundIsInside(node.files, id);
      match Search(node.files, id)
      case Found(index) => Ok(Some(node.files[index]))
      case Missing(child) =>
        if node.IsLeaf() then Ok(None)
        else
          SearchStaysInside(node.files, id);
          Find(kids[child], id)
  }

  /** The lookup as it runs, from block to block. */
  method FindEntry(dat: Dat, id: int, ghost t: Tree) returns (r: Result<Option<Entry>, DatError>)
    requires dat.Valid() && Stands(dat, 0, dat.rootBlock, t) && WellShaped(t) && Searchable(t)
    ensures r == Find(t, id)
  {
    var block := dat.rootBlock;
    ghost var under, parent := t, 0;
    while IsValidOffset(block)
      invariant Stands(dat, parent, block, under) && WellShaped(under) && Searchable(under)
      invariant Find(t, id) == Find(under, id)
      decreases under
    {
      var node := ReadNode(dat, block);
      if node.Err? {
        return Err(node.error);
      }
      FoundIsInside(node.value.files, id);
      var probe := Search(node.value.files, id);
      match probe
      case Found(index) =>
        return Ok(Some(node.value.files[index]));
      case Missing(child) =>
        if node.value.IsLeaf() {
          return Ok(None);
        }
        SearchStaysInside(node.value.files, id);
        block := node.value.Child(child);
        parent, under := node.value.offset, under.kids[child];
    }
    r := Ok(None);
  }
}
