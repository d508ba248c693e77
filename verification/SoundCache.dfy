/** The cache of decoded waves under concurrent callers. */
module SoundCache {
  // Each lock-protected block is one step, and the in-flight lock is held across the
  // second look, which is what makes one decode enough; threads take steps in any order.

  import opened Wrappers
  import opened Recency

  /** A decoded wave: what it was decoded from, and which decode made it. */
  datatype Wave = Wave(id: int, serial: nat)

  /** The stored size of each wave (none: it does not exist or does not decode),
      and the budget. A read may fail at any time. */
  datatype Setting = Setting(bytes: int -> Option<nat>, budget: nat) {
    predicate Valid() {
      budget >= 1
    }

    /** What keeping wave `id` is charged. */
    function Charge(id: int): nat {
      match bytes(id)
      case Some(n) => if n < 1 then 1 else n
      case None => 1
    }

    function ItemOf(w: Wave): Item<int, Wave> {
      Item(w.id, w, Charge(w.id))
    }
  }

  datatype Outcome = Found(wave: Wave) | NoWave | ReadError

  datatype Cell = Cell(id: int, work: Work)

  datatype Work = Empty | Running(thread: int) | Full(outcome: Outcome)

  /** Where a thread is in a call. */
  datatype Thread =
    | Idle
    | Entered(id: int)
    | NotHeld(id: int)                              // first look: not among the waves
    | Wanting(id: int)                              // nor known missing: wants the in-flight lock
    | Locked(id: int)
    | LockedNotHeld(id: int)                        // second look: not among the waves
    | HasCell(id: int, cell: nat)
    | Decoding(id: int, cell: nat)
    | HasOutcome(id: int, cell: nat, outcome: Outcome)
    | Finishing(id: int, cell: nat, outcome: Outcome)
    | Served(id: int, outcome: Outcome)
  {
    predicate HoldsLock() {
      Locked? || LockedNotHeld?
    }

    predicate OnCell() {
      HasCell? || Decoding? || HasOutcome? || Finishing?
    }

    predicate Calling() {
      !Idle? && !Served?
    }
  }

  /** `started` and `served` are the run so far: the decodes begun and the
      answers given, in order. */
  datatype State = State(items: seq<Item<int, Wave>>, missing: set<int>, inFlight: map<int, nat>, lock: Option<int>,
                         cells: seq<Cell>, threads: map<int, Thread>,
                         started: seq<int>, served: seq<(int, Outcome)>) {
    function At(t: int): Thread {
      if t in threads then threads[t] else Idle
    }

    function Put(t: int, thread: Thread): State {
      this.(threads := threads[t := thread])
    }

    function Answer(t: int, id: int, outcome: Outcome): State {
      this.(served := served + [(id, outcome)]).Put(t, Served(id, outcome))
    }

    function Unlocked(): State {
      this.(lock := None)
    }
  }

  const START := State([], {}, map[], None, [], map[], [], [])

  datatype Action = Call(t: int, id: int) | Advance(t: int) | Decoded(t: int, readable: bool)

  // ---- Steps --------------------------------------------------------------------

  predicate Enabled(s: State, a: Action) {
    match a
    case Call(t, _) => !s.At(t).Calling()
    case Decoded(t, _) => s.At(t).Decoding?
    case Advance(t) =>
      match s.At(t)
      case Idle => false
      case Served(_, _) => false
      case Decoding(_, _) => false
      case Wanting(_) => s.lock.None?
      case Finishing(_, _, _) => s.lock.None?
      case HasCell(_, cell) => cell < |s.cells| && !s.cells[cell].work.Running?
      case _ => true
  }

  /** Room is made by bytes alone: the count is not limited. */
  function Budget(c: Setting, items: seq<Item<int, Wave>>): Limits {
    Limits(|items| + 1, c.budget)
  }

  /** Offer a wave to the cache; the one to use. */
  function Admitted(c: Setting, items: seq<Item<int, Wave>>, w: Wave): (seq<Item<int, Wave>>, Wave) {
    Offered(items, Budget(c, items), c.ItemOf(w))
  }

  function Look(s: State, t: int, id: int, next: Thread): State {
    var found := Lookup(s.items, id);
    var touched := s.(items := Touched(s.items, id));
    if found.Some? then touched.Unlocked().Answer(t, id, Found(found.value)) else touched.Put(t, next)
  }

  /** The in-flight cell of an id: the one there, or a new one. */
  function Join(s: State, t: int, id: int): State {
    if id in s.inFlight then s.Unlocked().Put(t, HasCell(id, s.inFlight[id]))
    else
      var cell := |s.cells|;
      s.Unlocked().(inFlight := s.inFlight[id := cell], cells := s.cells + [Cell(id, Empty)]).Put(t, HasCell(id, cell))
  }

  /** The first to open an empty cell decodes; the rest take what it holds. */
  function Open(s: State, t: int, id: int, cell: nat): State
    requires cell < |s.cells| && !s.cells[cell].work.Running?
  {
    match s.cells[cell].work
    case Full(outcome) => s.Put(t, HasOutcome(id, cell, outcome))
    case _ =>
      s.(cells := s.cells[cell := Cell(s.cells[cell].id, Running(t))], started := s.started + [id])
      .Put(t, Decoding(id, cell))
  }

  function Keep(c: Setting, s: State, t: int, id: int, cell: nat, outcome: Outcome): State {
    match outcome
    case Found(w) =>
      var (items, used) := Admitted(c, s.items, w);
      s.(items := items).Put(t, Finishing(id, cell, Found(used)))
    case NoWave => s.(missing := s.missing + {id}).Put(t, Finishing(id, cell, NoWave))
    case ReadError => s.Put(t, Finishing(id, cell, ReadError))
  }

  function Step(c: Setting, s: State, a: Action): State
    requires Enabled(s, a)
  {
    match a
    case Call(t, id) => s.Put(t, Entered(id))
    case Decoded(t, readable) =>
      var (id, cell) := (s.At(t).id, s.At(t).cell);
      var outcome :=
        if !readable then ReadError else if c.bytes(id).None? then NoWave else Found(Wave(id, |s.started|));
      if cell < |s.cells| then
        s.(cells := s.cells[cell := Cell(s.cells[cell].id, Full(outcome))]).Put(t, HasOutcome(id, cell, outcome))
      else s
    case Advance(t) =>
      match s.At(t)
      case Entered(id) =>
        var found := Lookup(s.items, id);
        var touched := s.(items := Touched(s.items, id));
        if found.Some? then touched.Answer(t, id, Found(found.value)) else touched.Put(t, NotHeld(id))
      case NotHeld(id) => if id in s.missing then s.Answer(t, id, NoWave) else s.Put(t, Wanting(id))
      case Wanting(id) => s.(lock := Some(t)).Put(t, Locked(id))
      case Locked(id) => Look(s, t, id, LockedNotHeld(id))
      case LockedNotHeld(id) => if id in s.missing then s.Unlocked().Answer(t, id, NoWave) else Join(s, t, id)
      case HasCell(id, cell) => Open(s, t, id, cell)
      case HasOutcome(id, cell, outcome) => Keep(c, s, t, id, cell, outcome)
      case Finishing(id, cell, outcome) =>
        (if id in s.inFlight && s.inFlight[id] == cell then s.(inFlight := s.inFlight - {id}) else s)
        .Answer(t, id, outcome)
      case _ => s
  }

  predicate Runs(c: Setting, s: State, run: seq<Action>)
    decreases |run|
  {
    run != [] ==> Enabled(s, run[0]) && Runs(c, Step(c, s, run[0]), run[1..])
  }

  function After(c: Setting, s: State, run: seq<Action>): State
    requires Runs(c, s, run)
    decreases |run|
  {
    if run == [] then s else After(c, Step(c, s, run[0]), run[1..])
  }

  // ---- What every step keeps -------------------------------------------------------

  predicate ThreadFits(s: State, t: int) {
    var x := s.At(t);
    && (x.HoldsLock() <==> s.lock == Some(t))
    && (x.OnCell() ==> x.cell < |s.cells| && s.cells[x.cell].id == x.id)
    && (x.Decoding? ==> s.cells[x.cell].work == Running(t))
    && ((x.HasOutcome? || x.Finishing?) ==> s.cells[x.cell].work.Full?)
    && (x.HasOutcome? ==> s.cells[x.cell].work == Full(x.outcome))
  }

  /** A cell not yet full is the one in flight for its id. */
  predicate CellFits(s: State, k: nat)
    requires k < |s.cells|
  {
    var cell := s.cells[k];
    && (!cell.work.Full? ==> cell.id in s.inFlight && s.inFlight[cell.id] == k)
    && (cell.work.Running? ==> s.At(cell.work.thread) == Decoding(cell.id, k))
    && (cell.work.Full? && cell.work.outcome.Found? ==> cell.work.outcome.wave.id == cell.id)
  }

  predicate BoardFits(s: State, id: int) {
    id in s.inFlight ==> s.inFlight[id] < |s.cells| && s.cells[s.inFlight[id]].id == id
  }

  ghost predicate Fits(s: State) {
    && (forall t {:trigger ThreadFits(s, t)} :: ThreadFits(s, t))
    && (forall k: nat {:trigger CellFits(s, k)} | k < |s.cells| :: CellFits(s, k))
    && (forall id {:trigger BoardFits(s, id)} :: BoardFits(s, id))
  }

  lemma StepFitsOwnThread(c: Setting, s: State, a: Action)
    requires Fits(s) && Enabled(s, a)
    ensures ThreadFits(Step(c, s, a), a.t)
  {
    var x := s.At(a.t);
    assert ThreadFits(s, a.t) && (x.LockedNotHeld? ==> BoardFits(s, x.id));
  }

  lemma StepFitsOtherThread(c: Setting, s: State, a: Action, u: int)
    requires Fits(s) && Enabled(s, a) && u != a.t
    ensures ThreadFits(Step(c, s, a), u)
  {
    assert ThreadFits(s, a.t) && ThreadFits(s, u);
  }

  lemma StepFitsThreads(c: Setting, s: State, a: Action)
    requires Fits(s) && Enabled(s, a)
    ensures forall u {:trigger ThreadFits(Step(c, s, a), u)} :: ThreadFits(Step(c, s, a), u)
  {
    forall u ensures ThreadFits(Step(c, s, a), u) {
      if u == a.t {
        StepFitsOwnThread(c, s, a);
      } else {
        StepFitsOtherThread(c, s, a, u);
      }
    }
  }

  lemma StepFitsCells(c: Setting, s: State, a: Action)
    requires Fits(s) && Enabled(s, a)
    ensures forall k: nat {:trigger CellFits(Step(c, s, a), k)} | k < |Step(c, s, a).cells| :: CellFits(Step(c, s, a), k)
  {
    var after := Step(c, s, a);
    assert ThreadFits(s, a.t);
    forall k: nat | k < |after.cells| ensures CellFits(after, k) {
      assert k < |s.cells| ==> CellFits(s, k);
    }
  }

  lemma StepFits(c: Setting, s: State, a: Action)
    requires Fits(s) && Enabled(s, a)
    ensures Fits(Step(c, s, a))
  {
    var after := Step(c, s, a);
    StepFitsThreads(c, s, a);
    StepFitsCells(c, s, a);
    assert ThreadFits(s, a.t);
    forall id ensures BoardFits(after, id) {
      assert BoardFits(s, id);
    }
  }

  lemma {:induction false} EveryRunFits(c: Setting, s: State, run: seq<Action>)
    requires Fits(s) && Runs(c, s, run)
    ensures Fits(After(c, s, run))
    decreases |run|
  {
    if run != [] {
      StepFits(c, s, run[0]);
      EveryRunFits(c, Step(c, s, run[0]), run[1..]);
    }
  }

  /** However the threads interleave, at most one of them decodes a wave. */
  lemma OneDecodeAtATime(c: Setting, run: seq<Action>, t: int, u: int)
    requires Runs(c, START, run)
    requires After(c, START, run).At(t).Decoding? && After(c, START, run).At(u).Decoding?
    requires After(c, START, run).At(t).id == After(c, START, run).At(u).id
    ensures t == u
  {
    EveryRunFits(c, START, run);
    var s := After(c, START, run);
    assert ThreadFits(s, t) && ThreadFits(s, u);
    assert CellFits(s, s.At(t).cell) && CellFits(s, s.At(u).cell);
  }

  /** The step that gets a blocked call going: its own, that of the lock's holder
      or of whoever decodes for it. */
  function Unblock(s: State, t: int): Action {
    var x := s.At(t);
    if x.Decoding? then Decoded(t, true)
    else if (x.Wanting? || x.Finishing?) && s.lock.Some? then Advance(s.lock.value)
    else if x.HasCell? && x.cell < |s.cells| && s.cells[x.cell].work.Running? then
      Decoded(s.cells[x.cell].work.thread, true)
    else Advance(t)
  }

  // ---- Served in the end -------------------------------------------------------------

  /** What the lock's holder still has to do before it lets go. */
  function HolderSteps(s: State): nat {
    match s.lock
    case None => 0
    case Some(u) => if s.At(u).Locked? then 2 else 1
  }

  predicate WaitsForDecode(s: State, x: Thread) {
    x.HasCell? && x.cell < |s.cells| && s.cells[x.cell].work.Running?
  }

  /** How many unblocking steps a call may still need. */
  function StepsLeft(s: State, t: int): (n: nat)
    ensures n <= 14
  {
    var x := s.At(t);
    match x
    case Idle => 0
    case Served(_, _) => 0
    case Entered(_) => 14
    case NotHeld(_) => 13
    case Wanting(_) => 10 + HolderSteps(s)
    case Locked(_) => 9
    case LockedNotHeld(_) => 8
    case HasCell(_, _) => if WaitsForDecode(s, x) then 7 else 6
    case Decoding(_, _) => 5
    case HasOutcome(_, _, _) => 4
    case Finishing(_, _, _) => 1 + HolderSteps(s)
  }

  lemma UnblockIsEnabled(s: State, t: int)
    requires Fits(s) && s.At(t).Calling()
    ensures Enabled(s, Unblock(s, t))
  {
    assert ThreadFits(s, t);
    assert s.lock.Some? ==> ThreadFits(s, s.lock.value);
    assert s.At(t).OnCell() ==> CellFits(s, s.At(t).cell);
  }

  /** The step that lets go brings a waiting call one step nearer. */
  lemma HolderMoves(c: Setting, s: State, t: int)
    requires Fits(s) && s.lock.Some? && s.lock.value != t && Enabled(s, Advance(s.lock.value))
    ensures
      var after := Step(c, s, Advance(s.lock.value));
      after.At(t) == s.At(t) && HolderSteps(after) < HolderSteps(s)
  {
    assert ThreadFits(s, s.lock.value);
  }

  lemma DecoderMoves(c: Setting, s: State, t: int)
    requires Fits(s) && WaitsForDecode(s, s.At(t))
    requires Enabled(s, Decoded(s.cells[s.At(t).cell].work.thread, true))
    ensures
      var after := Step(c, s, Decoded(s.cells[s.At(t).cell].work.thread, true));
      after.At(t) == s.At(t) && !WaitsForDecode(after, after.At(t))
  {
    assert ThreadFits(s, t) && CellFits(s, s.At(t).cell);
    assert ThreadFits(s, s.cells[s.At(t).cell].work.thread);
  }

  /** Its own step brings a call nearer, and it stays the same call. */
  lemma OwnMoves(c: Setting, s: State, t: int)
    requires Fits(s) && s.At(t).Calling() && !s.At(t).Decoding? && Enabled(s, Advance(t))
    requires !WaitsForDecode(s, s.At(t)) && ((s.At(t).Wanting? || s.At(t).Finishing?) ==> s.lock.None?)
    ensures
      var after := Step(c, s, Advance(t));
      StepsLeft(after, t) < StepsLeft(s, t) && !after.At(t).Idle? && after.At(t).id == s.At(t).id
  {
    assert ThreadFits(s, t);
  }

  lemma DecodingMoves(c: Setting, s: State, t: int)
    requires Fits(s) && s.At(t).Decoding?
    ensures
      var after := Step(c, s, Decoded(t, true));
      StepsLeft(after, t) < StepsLeft(s, t) && !after.At(t).Idle? && after.At(t).id == s.At(t).id
  {
    assert ThreadFits(s, t);
  }

  lemma UnblockMoves(c: Setting, s: State, t: int)
    requires Fits(s) && s.At(t).Calling() && Enabled(s, Unblock(s, t))
    ensures
      var after := Step(c, s, Unblock(s, t));
      StepsLeft(after, t) < StepsLeft(s, t) && !after.At(t).Idle? && after.At(t).id == s.At(t).id
  {
    var x := s.At(t);
    assert ThreadFits(s, t);
    if x.Decoding? {
      DecodingMoves(c, s, t);
    } else if (x.Wanting? || x.Finishing?) && s.lock.Some? {
      HolderMoves(c, s, t);
    } else if WaitsForDecode(s, x) {
      DecoderMoves(c, s, t);
    } else {
      OwnMoves(c, s, t);
    }
  }

  lemma RunsOneMore(c: Setting, s: State, a: Action, rest: seq<Action>)
    requires Enabled(s, a) && Runs(c, Step(c, s, a), rest)
    ensures Runs(c, s, [a] + rest) && After(c, s, [a] + rest) == After(c, Step(c, s, a), rest)
  {
    var run := [a] + rest;
    assert run[0] == a && run[1..] == rest;
  }

  /** Whatever has happened, a call is answered within fourteen more steps, its own and
      those of the threads it waits for, none of which waits for anyone. */
  lemma {:induction false} ServedSoon(c: Setting, s: State, t: int) returns (run: seq<Action>)
    requires Fits(s) && s.At(t).Calling()
    ensures |run| <= StepsLeft(s, t) && Runs(c, s, run)
    ensures After(c, s, run).At(t).Served? && After(c, s, run).At(t).id == s.At(t).id
    decreases StepsLeft(s, t)
  {
    var a := Unblock(s, t);
    UnblockIsEnabled(s, t);
    UnblockMoves(c, s, t);
    StepFits(c, s, a);
    var after := Step(c, s, a);
    var rest: seq<Action> := [];
    if after.At(t).Calling() {
      rest := ServedSoon(c, after, t);
    }
    RunsOneMore(c, s, a, rest);
    run := [a] + rest;
  }

  /** Nobody waits for ever: after any run a calling thread has a bounded run of steps
      that all can be taken and after which it is served what it asked for. */
  lemma EveryCallIsServed(c: Setting, run: seq<Action>, t: int) returns (more: seq<Action>)
    requires Runs(c, START, run) && After(c, START, run).At(t).Calling()
    ensures |more| <= 14 && Runs(c, After(c, START, run), more)
    ensures
      var (before, after) := (After(c, START, run), After(c, After(c, START, run), more));
      after.At(t).Served? && after.At(t).id == before.At(t).id
  {
    EveryRunFits(c, START, run);
    more := ServedSoon(c, After(c, START, run), t);
  }

  // ---- The budget --------------------------------------------------------------------

  predicate Bounded(c: Setting, items: seq<Item<int, Wave>>) {
    DistinctKeys(items) && TotalSize(items) <= c.budget
  }

  /** A wave kept is kept under its own id, at its own charge. */
  predicate Charged(c: Setting, items: seq<Item<int, Wave>>) {
    forall item | item in items :: item == c.ItemOf(item.value)
  }

  lemma AdmitStaysBounded(c: Setting, items: seq<Item<int, Wave>>, w: Wave)
    requires Bounded(c, items) && Charged(c, items)
    ensures Bounded(c, Admitted(c, items, w).0) && Charged(c, Admitted(c, items, w).0)
    ensures Admitted(c, items, w).1.id == w.id
  {
    var item, limits := c.ItemOf(w), Budget(c, items);
    OfferedStaysWithin(items, limits, item);
    var i := IndexOf(items, w.id);
    assert i < |items| ==> items[i] in items;
    var after := Admitted(c, items, w).0;
    forall kept | kept in after ensures kept == c.ItemOf(kept.value) {
      var k :| 0 <= k < |after| && after[k] == kept;
      OfferedHoldsNothingElse(items, limits, item, k);
    }
  }

  lemma TouchStaysBounded(c: Setting, items: seq<Item<int, Wave>>, id: int)
    requires Bounded(c, items) && Charged(c, items)
    ensures Bounded(c, Touched(items, id)) && Charged(c, Touched(items, id))
  {
    TouchedKeepsItems(items, id);
    TouchedKeepsDistinct(items, id);
    forall kept | kept in Touched(items, id) ensures kept == c.ItemOf(kept.value) {
      assert kept in multiset(Touched(items, id));
    }
  }

  lemma StepStaysBounded(c: Setting, s: State, a: Action)
    requires Enabled(s, a) && Bounded(c, s.items) && Charged(c, s.items)
    ensures Bounded(c, Step(c, s, a).items) && Charged(c, Step(c, s, a).items)
  {
    var x := s.At(a.t);
    if a.Advance? && (x.Entered? || x.Locked?) {
      TouchStaysBounded(c, s.items, x.id);
    }
    if a.Advance? && x.HasOutcome? && x.outcome.Found? {
      AdmitStaysBounded(c, s.items, x.outcome.wave);
    }
  }

  /** The waves held never add up to more than the budget. */
  lemma {:induction false} EveryRunStaysBounded(c: Setting, s: State, run: seq<Action>)
    requires Runs(c, s, run) && Bounded(c, s.items) && Charged(c, s.items)
    ensures Bounded(c, After(c, s, run).items) && Charged(c, After(c, s, run).items)
    decreases |run|
  {
    if run != [] {
      StepStaysBounded(c, s, run[0]);
      EveryRunStaysBounded(c, Step(c, s, run[0]), run[1..]);
    }
  }

  // ---- Each wave once -------------------------------------------------------------------

  /** A step that reads, and drops nothing and keeps what it is given. */
  predicate Smooth(c: Setting, s: State, a: Action) {
    && (a.Decoded? ==> a.readable)
    && (a.Advance? && s.At(a.t).HasOutcome? && s.At(a.t).outcome.Found? ==>
          var w := s.At(a.t).outcome.wave;
          Lookup(s.items, w.id).Some? || TotalSize(s.items) + c.Charge(w.id) <= c.budget)
  }

  predicate SmoothRun(c: Setting, s: State, run: seq<Action>)
    requires Runs(c, s, run)
    decreases |run|
  {
    run != [] ==> Smooth(c, s, run[0]) && SmoothRun(c, Step(c, s, run[0]), run[1..])
  }

  predicate Holding(s: State, id: int) {
    Lookup(s.items, id).Some?
  }

  /** What is known of an id's wave by anyone is what its one cell holds. */
  predicate Agrees(s: State, id: int, outcome: Outcome) {
    exists k :: 0 <= k < |s.cells| && s.cells[k] == Cell(id, Full(outcome))
  }

  predicate OutOfFlight(s: State, k: nat)
    requires k < |s.cells|
  {
    s.cells[k].id !in s.inFlight || s.inFlight[s.cells[k].id] != k
  }

  predicate OneCell(s: State, k: nat, l: nat)
    requires k < |s.cells| && l < |s.cells|
  {
    s.cells[k].id == s.cells[l].id ==> k == l
  }

  predicate Settled(s: State, k: nat)
    requires k < |s.cells|
  {
    && s.cells[k].work != Full(ReadError)
    && (OutOfFlight(s, k) ==> Holding(s, s.cells[k].id) || s.cells[k].id in s.missing)
  }

  predicate ThreadAgrees(s: State, t: int) {
    var x := s.At(t);
    && ((x.HasOutcome? || x.Finishing?) ==> x.outcome != ReadError && Agrees(s, x.id, x.outcome))
    && (x.Finishing? ==> Holding(s, x.id) || x.id in s.missing)
    && (x.LockedNotHeld? && x.id !in s.inFlight && x.id !in s.missing ==>
          forall k | 0 <= k < |s.cells| :: s.cells[k].id != x.id)
  }

  predicate HeldAgrees(s: State, id: int) {
    && (Holding(s, id) ==> Agrees(s, id, Found(Lookup(s.items, id).value)))
    && (id in s.missing ==> Agrees(s, id, NoWave))
  }

  /** Some decode of `id` has begun. */
  predicate Begun(s: State, id: int) {
    exists k :: 0 <= k < |s.cells| && s.cells[k].id == id && !s.cells[k].work.Empty?
  }

  predicate StartAgrees(s: State, id: int) {
    multiset(s.started)[id] == if Begun(s, id) then 1 else 0
  }

  ghost predicate Once(s: State) {
    && (forall k: nat, l: nat {:trigger OneCell(s, k, l)} | k < |s.cells| && l < |s.cells| :: OneCell(s, k, l))
    && (forall k: nat {:trigger Settled(s, k)} | k < |s.cells| :: Settled(s, k))
    && (forall t {:trigger ThreadAgrees(s, t)} :: ThreadAgrees(s, t))
    && (forall id {:trigger HeldAgrees(s, id)} :: HeldAgrees(s, id))
    && (forall id {:trigger StartAgrees(s, id)} :: StartAgrees(s, id))
    && (forall i {:trigger s.served[i]} | 0 <= i < |s.served| :: Agrees(s, s.served[i].0, s.served[i].1))
  }

  /** Cells are only added, and a full one never changes. */
  predicate Grows(s: State, after: State) {
    && |s.cells| <= |after.cells|
    && forall k {:trigger s.cells[k]} {:trigger after.cells[k]} | 0 <= k < |s.cells| ::
         && after.cells[k].id == s.cells[k].id
         && (s.cells[k].work.Full? ==> after.cells[k] == s.cells[k])
         && (!s.cells[k].work.Empty? ==> !after.cells[k].work.Empty?)
  }

  lemma StepGrows(c: Setting, s: State, a: Action)
    requires Fits(s) && Enabled(s, a)
    ensures Grows(s, Step(c, s, a))
  {
    assert ThreadFits(s, a.t);
  }

  lemma AgreesStays(s: State, after: State, id: int, outcome: Outcome)
    requires Grows(s, after) && Agrees(s, id, outcome)
    ensures Agrees(after, id, outcome)
  {
    var k :| 0 <= k < |s.cells| && s.cells[k] == Cell(id, Full(outcome));
    assert after.cells[k] == s.cells[k];
  }

  lemma TouchLookup(items: seq<Item<int, Wave>>, id: int, other: int)
    requires DistinctKeys(items)
    ensures Lookup(Touched(items, id), other) == Lookup(items, other)
  {
    TouchedKeepsItems(items, id);
    TouchedKeepsDistinct(items, id);
    SameItemsSameLookup(items, Touched(items, id), other);
  }

  lemma SameItemsSameLookup(a: seq<Item<int, Wave>>, b: seq<Item<int, Wave>>, id: int)
    requires multiset(a) == multiset(b) && DistinctKeys(a) && DistinctKeys(b)
    ensures Lookup(a, id) == Lookup(b, id)
  {
    var i, j := IndexOf(a, id), IndexOf(b, id);
    if i < |a| {
      assert a[i] in multiset(b);
      var k :| 0 <= k < |b| && b[k] == a[i];
    }
    if j < |b| {
      assert b[j] in multiset(a);
      var k :| 0 <= k < |a| && a[k] == b[j];
    }
  }

  lemma AppendLookup(items: seq<Item<int, Wave>>, item: Item<int, Wave>, id: int)
    requires Lookup(items, item.key).None?
    ensures Lookup(items + [item], id) ==
      if Lookup(items, id).Some? then Lookup(items, id) else if id == item.key then Some(item.value) else None
  {
    var all := items + [item];
    var i, j := IndexOf(items, id), IndexOf(all, id);
    assert i < |items| ==> all[i] == items[i];
    assert j < |items| ==> all[j] == items[j];
    assert all[|items|] == item;
  }

  /** What a wave admitted without anything dropped changes. */
  lemma AdmitLookup(c: Setting, items: seq<Item<int, Wave>>, w: Wave, id: int)
    requires DistinctKeys(items)
    requires Lookup(items, w.id).Some? || TotalSize(items) + c.Charge(w.id) <= c.budget
    ensures
      var (after, used) := Admitted(c, items, w);
      && Lookup(after, id) ==
           (if Lookup(items, id).Some? then Lookup(items, id) else if id == w.id then Some(w) else None)
      && used == if Lookup(items, w.id).Some? then Lookup(items, w.id).value else w
  {
    if Lookup(items, w.id).Some? {
      TouchLookup(items, w.id, id);
    } else {
      assert MakeRoom(items, Budget(c, items), c.Charge(w.id)) == items;
      AppendLookup(items, c.ItemOf(w), id);
    }
  }

  /** What a smooth step leaves held: all that was, and perhaps the wave it was
      given. */
  lemma SmoothLookup(c: Setting, s: State, a: Action, id: int)
    requires Fits(s) && Enabled(s, a) && Smooth(c, s, a) && DistinctKeys(s.items)
    ensures
      var x := s.At(a.t);
      Lookup(Step(c, s, a).items, id) ==
        if Lookup(s.items, id).Some? then Lookup(s.items, id)
        else if a.Advance? && x.HasOutcome? && x.outcome.Found? && x.outcome.wave.id == id then Some(x.outcome.wave)
        else None
  {
    var x := s.At(a.t);
    if a.Advance? && (x.Entered? || x.Locked?) {
      TouchLookup(s.items, x.id, id);
    }
    if a.Advance? && x.HasOutcome? && x.outcome.Found? {
      AdmitLookup(c, s.items, x.outcome.wave, id);
    }
  }

  // ---- Each part of the invariant, step by step ----------------------------------------

  lemma StepKeepsOneCell(c: Setting, s: State, a: Action, k: nat, l: nat)
    requires Fits(s) && Once(s) && Enabled(s, a) && k < |Step(c, s, a).cells| && l < |Step(c, s, a).cells|
    ensures OneCell(Step(c, s, a), k, l)
  {
    assert ThreadFits(s, a.t) && ThreadAgrees(s, a.t);
    assert k < |s.cells| && l < |s.cells| ==> OneCell(s, k, l);
  }

  lemma StepKeepsSettled(c: Setting, s: State, a: Action, k: nat)
    requires Fits(s) && Once(s) && Enabled(s, a) && Smooth(c, s, a) && DistinctKeys(s.items)
    requires k < |Step(c, s, a).cells|
    ensures Settled(Step(c, s, a), k)
  {
    var x := s.At(a.t);
    assert ThreadFits(s, a.t) && ThreadAgrees(s, a.t);
    if k < |s.cells| {
      assert Settled(s, k) && CellFits(s, k);
      SmoothLookup(c, s, a, s.cells[k].id);
    }
  }

  lemma StepKeepsHeldAgrees(c: Setting, s: State, a: Action, id: int)
    requires Fits(s) && Once(s) && Enabled(s, a) && Smooth(c, s, a) && DistinctKeys(s.items)
    ensures HeldAgrees(Step(c, s, a), id)
  {
    var x, after := s.At(a.t), Step(c, s, a);
    assert ThreadFits(s, a.t) && ThreadAgrees(s, a.t) && HeldAgrees(s, id);
    assert x.OnCell() ==> CellFits(s, x.cell);
    SmoothLookup(c, s, a, id);
    StepGrows(c, s, a);
    if Holding(after, id) {
      AgreesStays(s, after, id, Found(Lookup(after.items, id).value));
    }
    if id in after.missing {
      AgreesStays(s, after, id, NoWave);
    }
  }

  lemma StepKeepsServed(c: Setting, s: State, a: Action, i: nat)
    requires Fits(s) && Once(s) && Enabled(s, a) && i < |Step(c, s, a).served|
    ensures Agrees(Step(c, s, a), Step(c, s, a).served[i].0, Step(c, s, a).served[i].1)
  {
    var x, after := s.At(a.t), Step(c, s, a);
    assert ThreadAgrees(s, a.t) && (!x.Idle? ==> HeldAgrees(s, x.id));
    StepGrows(c, s, a);
    assert Agrees(s, after.served[i].0, after.served[i].1);
    AgreesStays(s, after, after.served[i].0, after.served[i].1);
  }

  /** A thread other than the one that moves. */
  lemma StepKeepsOtherThread(c: Setting, s: State, a: Action, u: int)
    requires Fits(s) && Once(s) && Enabled(s, a) && Smooth(c, s, a) && DistinctKeys(s.items) && u != a.t
    ensures ThreadAgrees(Step(c, s, a), u)
  {
    var x, after := s.At(u), Step(c, s, a);
    assert ThreadAgrees(s, u) && ThreadFits(s, a.t) && ThreadFits(s, u);
    assert after.At(u) == x;
    StepGrows(c, s, a);
    if x.HasOutcome? || x.Finishing? {
      AgreesStays(s, after, x.id, x.outcome);
      SmoothLookup(c, s, a, x.id);
    }
  }

  /** Not held when looked for, under the lock: missing, or never tried. */
  lemma LookedForIsNew(c: Setting, s: State, t: int)
    requires Fits(s) && Once(s) && s.At(t).Locked? && !Holding(s, s.At(t).id) && DistinctKeys(s.items)
    ensures ThreadAgrees(Step(c, s, Advance(t)), t)
  {
    var id := s.At(t).id;
    if id !in s.inFlight && id !in s.missing {
      forall k | 0 <= k < |s.cells| ensures s.cells[k].id != id {
        assert Settled(s, k);
      }
    }
  }

  lemma DecodedAgrees(c: Setting, s: State, t: int)
    requires Fits(s) && s.At(t).Decoding?
    ensures ThreadAgrees(Step(c, s, Decoded(t, true)), t)
  {
    var after := Step(c, s, Decoded(t, true));
    assert ThreadFits(s, t);
    assert after.cells[s.At(t).cell] == Cell(s.At(t).id, Full(after.At(t).outcome));
  }

  lemma KeptAgrees(c: Setting, s: State, t: int)
    requires Fits(s) && Once(s) && s.At(t).HasOutcome? && DistinctKeys(s.items) && Smooth(c, s, Advance(t))
    ensures ThreadAgrees(Step(c, s, Advance(t)), t)
  {
    var x, after := s.At(t), Step(c, s, Advance(t));
    assert ThreadFits(s, t) && ThreadAgrees(s, t) && HeldAgrees(s, x.id) && CellFits(s, x.cell);
    if x.outcome.Found? {
      AdmitLookup(c, s.items, x.outcome.wave, x.id);
    }
    assert Agrees(s, x.id, after.At(t).outcome);
    AgreesStays(s, after, x.id, after.At(t).outcome);
  }

  lemma StepKeepsOwnThread(c: Setting, s: State, a: Action)
    requires Fits(s) && Once(s) && Enabled(s, a) && Smooth(c, s, a) && DistinctKeys(s.items)
    ensures ThreadAgrees(Step(c, s, a), a.t)
  {
    var x, after := s.At(a.t), Step(c, s, a);
    assert ThreadFits(s, a.t);
    if a.Decoded? {
      DecodedAgrees(c, s, a.t);
    } else if a.Advance? && x.HasOutcome? {
      KeptAgrees(c, s, a.t);
    } else if a.Advance? && x.Locked? && !Holding(s, x.id) {
      LookedForIsNew(c, s, a.t);
    } else if a.Advance? && x.HasCell? && s.cells[x.cell].work.Full? {
      assert s.cells[x.cell] == Cell(x.id, Full(after.At(a.t).outcome));
      assert Settled(s, x.cell);
    }
  }

  lemma StepKeepsBegun(c: Setting, s: State, a: Action, id: int)
    requires Fits(s) && Once(s) && Enabled(s, a)
    ensures
      var opens := a.Advance? && s.At(a.t).HasCell? && s.cells[s.At(a.t).cell].work.Empty? && s.At(a.t).id == id;
      && (Begun(Step(c, s, a), id) <==> Begun(s, id) || opens)
      && (opens ==> !Begun(s, id))
  {
    var x, after := s.At(a.t), Step(c, s, a);
    assert ThreadFits(s, a.t);
    StepGrows(c, s, a);
    if Begun(s, id) {
      var k :| 0 <= k < |s.cells| && s.cells[k].id == id && !s.cells[k].work.Empty?;
      assert after.cells[k].id == id && !after.cells[k].work.Empty?;
      assert x.OnCell() ==> OneCell(s, k, x.cell);
    }
    if Begun(after, id) {
      var k :| 0 <= k < |after.cells| && after.cells[k].id == id && !after.cells[k].work.Empty?;
      assert k < |s.cells| && s.cells[k].id == id;
    }
    if a.Advance? && x.HasCell? && s.cells[x.cell].work.Empty? {
      assert after.cells[x.cell].id == x.id && !after.cells[x.cell].work.Empty?;
    }
  }

  lemma StepKeepsStarts(c: Setting, s: State, a: Action, id: int)
    requires Fits(s) && Once(s) && Enabled(s, a)
    ensures StartAgrees(Step(c, s, a), id)
  {
    assert StartAgrees(s, id) && ThreadFits(s, a.t);
    StepKeepsBegun(c, s, a, id);
  }

  lemma StepKeepsOnce(c: Setting, s: State, a: Action)
    requires Fits(s) && Once(s) && Enabled(s, a) && Smooth(c, s, a) && DistinctKeys(s.items)
    ensures Once(Step(c, s, a))
  {
    var after := Step(c, s, a);
    forall k: nat, l: nat | k < |after.cells| && l < |after.cells| ensures OneCell(after, k, l) {
      StepKeepsOneCell(c, s, a, k, l);
    }
    forall k: nat | k < |after.cells| ensures Settled(after, k) {
      StepKeepsSettled(c, s, a, k);
    }
    forall t ensures ThreadAgrees(after, t) {
      if t == a.t {
        StepKeepsOwnThread(c, s, a);
      } else {
        StepKeepsOtherThread(c, s, a, t);
      }
    }
    forall id ensures HeldAgrees(after, id) && StartAgrees(after, id) {
      StepKeepsHeldAgrees(c, s, a, id);
      StepKeepsStarts(c, s, a, id);
    }
    forall i | 0 <= i < |after.served| ensures Agrees(after, after.served[i].0, after.served[i].1) {
      StepKeepsServed(c, s, a, i);
    }
  }

  lemma {:induction false} SmoothRunKeepsOnce(c: Setting, s: State, run: seq<Action>)
    requires Fits(s) && Once(s) && Bounded(c, s.items) && Charged(c, s.items)
    requires Runs(c, s, run) && SmoothRun(c, s, run)
    ensures Once(After(c, s, run))
    decreases |run|
  {
    if run != [] {
      StepFits(c, s, run[0]);
      StepKeepsOnce(c, s, run[0]);
      StepStaysBounded(c, s, run[0]);
      SmoothRunKeepsOnce(c, Step(c, s, run[0]), run[1..]);
    }
  }

  /** In a run with no read error in which nothing is dropped or too big to keep,
      however the threads interleave, every wave is decoded at most once. */
  lemma DecodedOnce(c: Setting, run: seq<Action>, id: int)
    requires Runs(c, START, run) && SmoothRun(c, START, run)
    ensures multiset(After(c, START, run).started)[id] <= 1
  {
    SmoothRunKeepsOnce(c, START, run);
    assert StartAgrees(After(c, START, run), id);
  }

  /** And every two callers that asked for it are given the same answer. */
  lemma EveryCallerGetsTheSame(c: Setting, run: seq<Action>, i: nat, j: nat)
    requires Runs(c, START, run) && SmoothRun(c, START, run)
    requires i < |After(c, START, run).served| && j < |After(c, START, run).served|
    requires After(c, START, run).served[i].0 == After(c, START, run).served[j].0
    ensures After(c, START, run).served[i].1 == After(c, START, run).served[j].1
  {
    SmoothRunKeepsOnce(c, START, run);
    var s := After(c, START, run);
    var k :| 0 <= k < |s.cells| && s.cells[k] == Cell(s.served[i].0, Full(s.served[i].1));
    var l :| 0 <= l < |s.cells| && s.cells[l] == Cell(s.served[j].0, Full(s.served[j].1));
    assert OneCell(s, k, l);
  }

  // ---- When a run is smooth -----------------------------------------------------------

  /** What keeping all of `ids` is charged. */
  function Total(c: Setting, ids: seq<int>): nat {
    if ids == [] then 0 else c.Charge(ids[0]) + Total(c, ids[1..])
  }

  lemma {:induction false} TotalWithout(c: Setting, ids: seq<int>, j: nat)
    requires j < |ids|
    ensures Total(c, ids) == Total(c, ids[..j] + ids[j + 1..]) + c.Charge(ids[j])
  {
    if j == 0 {
      assert ids[..0] + ids[1..] == ids[1..];
    } else {
      TotalWithout(c, ids[1..], j - 1);
      assert (ids[..j] + ids[j + 1..])[1..] == ids[1..][..j - 1] + ids[1..][j..];
    }
  }

  predicate HeldAmong(items: seq<Item<int, Wave>>, ids: seq<int>) {
    forall item | item in items :: item.key in ids
  }

  /** Waves held under different ids of a list weigh no more than the list. */
  lemma {:induction false} HeldWithinTotal(c: Setting, items: seq<Item<int, Wave>>, ids: seq<int>)
    requires DistinctKeys(items) && Charged(c, items) && HeldAmong(items, ids)
    ensures TotalSize(items) <= Total(c, ids)
    decreases |items|
  {
    if items != [] {
      assert items[0] in items && items[0].key in ids;
      var j :| 0 <= j < |ids| && ids[j] == items[0].key;
      var others := ids[..j] + ids[j + 1..];
      forall item | item in items[1..] ensures item.key in others && item in items {
        var k :| 0 <= k < |items[1..]| && items[1..][k] == item;
        assert items[k + 1] == item && item.key != ids[j];
        var l :| 0 <= l < |ids| && ids[l] == item.key;
        assert if l < j then others[l] == item.key else others[l - 1] == item.key;
      }
      HeldWithinTotal(c, items[1..], others);
      TotalWithout(c, ids, j);
    }
  }

  /** Only `ids` are asked for. */
  ghost predicate Among(c: Setting, s: State, ids: seq<int>) {
    && (forall t {:trigger s.At(t)} :: s.At(t) != Idle ==> s.At(t).id in ids)
    && HeldAmong(s.items, ids)
  }

  predicate AsksAmong(run: seq<Action>, ids: seq<int>) {
    forall a | a in run :: (a.Call? ==> a.id in ids) && (a.Decoded? ==> a.readable)
  }

  lemma RoomForOne(c: Setting, items: seq<Item<int, Wave>>, ids: seq<int>, id: int)
    requires Bounded(c, items) && Charged(c, items) && HeldAmong(items, ids)
    requires id in ids && Lookup(items, id).None? && Total(c, ids) <= c.budget
    ensures TotalSize(items) + c.Charge(id) <= c.budget
  {
    var j :| 0 <= j < |ids| && ids[j] == id;
    var others := ids[..j] + ids[j + 1..];
    forall item | item in items ensures item.key in others {
      var k :| 0 <= k < |items| && items[k] == item;
      assert IndexOf(items, id) == |items| && item.key != id;
      var l :| 0 <= l < |ids| && ids[l] == item.key;
      assert if l < j then others[l] == item.key else others[l - 1] == item.key;
    }
    HeldWithinTotal(c, items, others);
    TotalWithout(c, ids, j);
  }

  lemma TouchHoldsAmong(items: seq<Item<int, Wave>>, id: int, ids: seq<int>)
    requires HeldAmong(items, ids)
    ensures HeldAmong(Touched(items, id), ids)
  {
    TouchedKeepsItems(items, id);
    forall item | item in Touched(items, id) ensures item.key in ids {
      assert item in multiset(Touched(items, id));
      assert item in items;
    }
  }

  lemma AdmitHoldsAmong(c: Setting, items: seq<Item<int, Wave>>, w: Wave, ids: seq<int>)
    requires HeldAmong(items, ids) && w.id in ids
    ensures HeldAmong(Admitted(c, items, w).0, ids)
  {
    var after := Admitted(c, items, w).0;
    forall item | item in after ensures item.key in ids {
      var k :| 0 <= k < |after| && after[k] == item;
      OfferedHoldsNothingElse(items, Budget(c, items), c.ItemOf(w), k);
    }
  }

  lemma StepHoldsAmong(c: Setting, s: State, a: Action, ids: seq<int>)
    requires Fits(s) && Enabled(s, a) && Among(c, s, ids)
    ensures HeldAmong(Step(c, s, a).items, ids)
  {
    var x := s.At(a.t);
    assert ThreadFits(s, a.t) && (x.OnCell() ==> CellFits(s, x.cell));
    if a.Advance? && (x.Entered? || x.Locked?) {
      TouchHoldsAmong(s.items, x.id, ids);
    } else if a.Advance? && x.HasOutcome? && x.outcome.Found? {
      AdmitHoldsAmong(c, s.items, x.outcome.wave, ids);
    }
  }

  lemma StepStaysAmong(c: Setting, s: State, a: Action, ids: seq<int>)
    requires Fits(s) && Enabled(s, a) && Among(c, s, ids) && (a.Call? ==> a.id in ids)
    ensures Among(c, Step(c, s, a), ids)
  {
    var x, after := s.At(a.t), Step(c, s, a);
    assert ThreadFits(s, a.t);
    assert x.OnCell() ==> CellFits(s, x.cell);
    forall t ensures after.At(t) != Idle ==> after.At(t).id in ids {
      assert t != a.t ==> after.At(t) == s.At(t);
    }
    StepHoldsAmong(c, s, a, ids);
  }

  /** A run is smooth when no read fails and the budget has room for every wave
      it asks for. */
  lemma {:induction false} RoomForAllIsSmooth(c: Setting, s: State, run: seq<Action>, ids: seq<int>)
    requires Fits(s) && Bounded(c, s.items) && Charged(c, s.items) && Among(c, s, ids)
    requires Runs(c, s, run) && AsksAmong(run, ids) && Total(c, ids) <= c.budget
    ensures SmoothRun(c, s, run)
    decreases |run|
  {
    if run != [] {
      var a := run[0];
      var x := s.At(a.t);
      assert a in run;
      assert ThreadFits(s, a.t) && (x.OnCell() ==> CellFits(s, x.cell));
      if a.Advance? && x.HasOutcome? && x.outcome.Found? && Lookup(s.items, x.outcome.wave.id).None? {
        RoomForOne(c, s.items, ids, x.id);
      }
      StepFits(c, s, a);
      StepStaysBounded(c, s, a);
      StepStaysAmong(c, s, a, ids);
      RoomForAllIsSmooth(c, Step(c, s, a), run[1..], ids);
    }
  }
}
