/** The gate on moving an install's files: a worker that tries until done, a retry
    and a stop, as steps that threads take in any order. */
module LayoutGate {
  import opened Wrappers

  datatype Progress = Ready | Moving | Waiting | Failed

  /** Where a thread that may try is: a retry let through has yet to start its
      worker; a worker is before, in or after a try. */
  datatype Agent =
    | Approved
    | Pausing                       // about to look whether it may try
    | Trying
    | Tried(outcome: Progress)
    | Published(outcome: Progress)  // the gate shows the outcome, the try still counts as running
    | Gone
  {
    predicate Live() {
      !Gone?
    }

    predicate InTry() {
      Trying? || Tried? || Published?
    }
  }

  /** `begun` counts the tries that have started. */
  datatype State = State(progress: Progress, running: bool, stopped: bool, agents: map<int, Agent>, begun: nat) {
    function At(t: int): Agent {
      if t in agents then agents[t] else Gone
    }

    function Put(t: int, a: Agent): State {
      this.(agents := agents[t := a])
    }
  }

  datatype Action =
    | StartTry(t: int)
    | EndTry(t: int, outcome: Progress)
    | Publish(t: int)
    | Clear(t: int)
    | Retry(t: int)                 // a new thread asks; refused, it is gone
    | Spawn(t: int, succeeds: bool)
    | StopGate

  /** An install already moved is ready; otherwise one worker is started (or the
      thread for it cannot be). */
  function Begin(current: bool, spawns: bool): State {
    if current then State(Ready, false, false, map[], 0)
    else if spawns then State(Moving, false, false, map[0 := Pausing], 0)
    else State(Failed, false, false, map[], 0)
  }

  predicate Enabled(s: State, a: Action) {
    match a
    case StartTry(t) => s.At(t).Pausing?
    case EndTry(t, outcome) => s.At(t).Trying? && !outcome.Moving?
    case Publish(t) => s.At(t).Tried?
    case Clear(t) => s.At(t).Published?
    case Retry(t) => s.At(t).Gone?
    case Spawn(t, _) => s.At(t).Approved?
    case StopGate => true
  }

  function Step(s: State, a: Action): State
    requires Enabled(s, a)
  {
    match a
    case StartTry(t) => if s.stopped then s.Put(t, Gone) else s.(running := true, begun := s.begun + 1).Put(t, Trying)
    case EndTry(t, outcome) => s.Put(t, Tried(outcome))
    case Publish(t) => s.(progress := s.At(t).outcome).Put(t, Published(s.At(t).outcome))
    case Clear(t) => s.(running := false).Put(t, if s.At(t).outcome.Waiting? then Pausing else Gone)
    case Retry(t) =>
      if s.stopped || s.running || s.progress != Failed then s else s.(progress := Moving).Put(t, Approved)
    case Spawn(t, succeeds) => if succeeds then s.Put(t, Pausing) else s.(progress := Failed).Put(t, Gone)
    case StopGate => s.(stopped := true)
  }

  /** What stopping answers: a try is still running. */
  function StopAnswers(s: State): bool {
    s.running
  }

  predicate Runs(s: State, run: seq<Action>)
    decreases |run|
  {
    run != [] ==> Enabled(s, run[0]) && Runs(Step(s, run[0]), run[1..])
  }

  function After(s: State, run: seq<Action>): State
    requires Runs(s, run)
    decreases |run|
  {
    if run == [] then s else After(Step(s, run[0]), run[1..])
  }

  // ---- What every step keeps --------------------------------------------------------

  /** No two threads may still try. */
  predicate OneAgent(s: State, t: int, u: int) {
    s.At(t).Live() && s.At(u).Live() ==> t == u
  }

  predicate AgentFits(s: State, t: int) {
    var x := s.At(t);
    && (x.InTry() ==> s.running)
    && (x.Live() && s.running ==> x.InTry())
    && (x.Live() && s.progress == Failed ==> x == Published(Failed))
    && (x.Published? ==> s.progress == x.outcome)
  }

  ghost predicate Fits(s: State) {
    && (forall t, u {:trigger OneAgent(s, t, u)} :: OneAgent(s, t, u))
    && (forall t {:trigger AgentFits(s, t)} :: AgentFits(s, t))
    && (s.running ==> exists t :: s.At(t).InTry())
  }

  lemma StepFits(s: State, a: Action)
    requires Fits(s) && Enabled(s, a)
    ensures Fits(Step(s, a))
  {
    var after := Step(s, a);
    if !a.StopGate? {
      assert AgentFits(s, a.t);
      forall t, u ensures OneAgent(after, t, u) {
        assert OneAgent(s, t, u) && OneAgent(s, a.t, u) && OneAgent(s, t, a.t);
        assert AgentFits(s, t) && AgentFits(s, u);
      }
      forall t ensures AgentFits(after, t) {
        assert AgentFits(s, t) && OneAgent(s, t, a.t);
      }
      StepKeepsRunner(s, a);
    } else {
      forall t, u ensures OneAgent(after, t, u) {
        assert OneAgent(s, t, u);
      }
      forall t ensures AgentFits(after, t) {
        assert AgentFits(s, t);
      }
      StepKeepsRunner(s, a);
    }
  }

  lemma StepKeepsRunner(s: State, a: Action)
    requires Fits(s) && Enabled(s, a)
    ensures Step(s, a).running ==> exists t :: Step(s, a).At(t).InTry()
  {
    var after := Step(s, a);
    if after.running {
      if s.running {
        var t :| s.At(t).InTry();
        assert a.StopGate? || OneAgent(s, t, a.t);
        assert after.At(t).InTry() || (!a.StopGate? && after.At(a.t).InTry());
      } else {
        assert after.At(a.t).InTry();
      }
    }
  }

  lemma {:induction false} EveryRunFits(s: State, run: seq<Action>)
    requires Fits(s) && Runs(s, run)
    ensures Fits(After(s, run))
    decreases |run|
  {
    if run != [] {
      StepFits(s, run[0]);
      EveryRunFits(Step(s, run[0]), run[1..]);
    }
  }

  lemma BeginFits(current: bool, spawns: bool)
    ensures Fits(Begin(current, spawns))
  {
  }

  // ---- What callers can rely on --------------------------------------------------------

  /** However the threads interleave, one try runs at a time. */
  lemma OneTryAtATime(current: bool, spawns: bool, run: seq<Action>, t: int, u: int)
    requires Runs(Begin(current, spawns), run)
    requires After(Begin(current, spawns), run).At(t).Trying? && After(Begin(current, spawns), run).At(u).Trying?
    ensures t == u
  {
    BeginFits(current, spawns);
    EveryRunFits(Begin(current, spawns), run);
    assert OneAgent(After(Begin(current, spawns), run), t, u);
  }

  /** A retry is let through only when no other thread can try any more, and the
      gate shows the failure of the last one. */
  lemma RetryWaitsForTheFailed(current: bool, spawns: bool, run: seq<Action>, t: int, u: int)
    requires Runs(Begin(current, spawns), run) && After(Begin(current, spawns), run).At(t).Gone?
    requires Step(After(Begin(current, spawns), run), Retry(t)).At(t).Approved?
    ensures !After(Begin(current, spawns), run).At(u).Live()
    ensures After(Begin(current, spawns), run).progress == Failed
  {
    BeginFits(current, spawns);
    EveryRunFits(Begin(current, spawns), run);
    assert AgentFits(After(Begin(current, spawns), run), u);
  }

  /** Once stopped, the gate stays so and no further try starts, however the run
      goes on. */
  lemma {:induction false} NoTryStartsOnceStopped(s: State, run: seq<Action>)
    requires s.stopped && Runs(s, run)
    ensures After(s, run).stopped && After(s, run).begun == s.begun
    decreases |run|
  {
    if run != [] {
      NoTryStartsOnceStopped(Step(s, run[0]), run[1..]);
    }
  }

  ghost predicate Quiet(s: State) {
    s.stopped && !s.running && forall t {:trigger s.At(t)} :: !s.At(t).InTry()
  }

  lemma {:induction false} QuietStays(s: State, run: seq<Action>)
    requires Quiet(s) && Runs(s, run)
    ensures Quiet(After(s, run))
    decreases |run|
  {
    if run != [] {
      var after := Step(s, run[0]);
      forall t ensures !after.At(t).InTry() {
        assert !s.At(t).InTry();
      }
      QuietStays(after, run[1..]);
    }
  }

  /** When stopping has answered that no try is running, none ever runs again. */
  lemma StoppedForGood(current: bool, spawns: bool, before: seq<Action>, later: seq<Action>, t: int)
    requires Runs(Begin(current, spawns), before)
    requires !StopAnswers(After(Begin(current, spawns), before))
    requires Runs(Step(After(Begin(current, spawns), before), StopGate), later)
    ensures !After(Step(After(Begin(current, spawns), before), StopGate), later).At(t).InTry()
    ensures !After(Step(After(Begin(current, spawns), before), StopGate), later).running
  {
    BeginFits(current, spawns);
    EveryRunFits(Begin(current, spawns), before);
    var s := After(Begin(current, spawns), before);
    var stopped := Step(s, StopGate);
    forall u ensures !stopped.At(u).InTry() {
      assert AgentFits(s, u);
    }
    QuietStays(stopped, later);
  }

  /** A gate never stuck: while a try counts as running, its thread can go on. */
  lemma RunningTryGoesOn(current: bool, spawns: bool, run: seq<Action>)
    requires Runs(Begin(current, spawns), run) && After(Begin(current, spawns), run).running
    ensures
      var s := After(Begin(current, spawns), run);
      exists t :: s.At(t).InTry() && (Enabled(s, EndTry(t, Ready)) || Enabled(s, Publish(t)) || Enabled(s, Clear(t)))
  {
    BeginFits(current, spawns);
    EveryRunFits(Begin(current, spawns), run);
    var s := After(Begin(current, spawns), run);
    var t :| s.At(t).InTry();
    assert Enabled(s, EndTry(t, Ready)) || Enabled(s, Publish(t)) || Enabled(s, Clear(t));
  }

  // ---- Until it is done ---------------------------------------------------------------

  /** A gate that shows a move going on or waited for, and is not stopped, has a worker
      at it. */
  ghost predicate KeepsAt(s: State) {
    && (forall t {:trigger s.At(t)} :: Outcome(s.At(t)))
    && ((s.progress == Moving || s.progress == Waiting) && !s.stopped ==> exists t :: s.At(t).Live())
  }

  /** A try ends one way or another. */
  predicate Outcome(x: Agent) {
    x.Tried? || x.Published? ==> x.outcome != Moving
  }

  lemma StepKeepsAt(s: State, a: Action)
    requires Fits(s) && KeepsAt(s) && Enabled(s, a)
    ensures KeepsAt(Step(s, a))
  {
    var after := Step(s, a);
    forall t ensures Outcome(after.At(t)) {
      assert Outcome(s.At(t)) && (!a.StopGate? ==> Outcome(s.At(a.t)));
    }
    if (after.progress == Moving || after.progress == Waiting) && !after.stopped {
      if a.StopGate? {
      } else if after.At(a.t).Live() {
      } else {
        assert AgentFits(s, a.t) && Outcome(s.At(a.t));
        var t :| s.At(t).Live();
        assert OneAgent(s, t, a.t);
        assert t != a.t ==> after.At(t) == s.At(t);
      }
    }
  }

  lemma {:induction false} RunKeepsAt(s: State, run: seq<Action>)
    requires Fits(s) && KeepsAt(s) && Runs(s, run)
    ensures KeepsAt(After(s, run))
    decreases |run|
  {
    if run != [] {
      StepFits(s, run[0]);
      StepKeepsAt(s, run[0]);
      RunKeepsAt(Step(s, run[0]), run[1..]);
    }
  }

  /** A move that waits for clients to end is tried again: however the threads interleave
      some worker is still at it, until it is done, fails or the gate is stopped. */
  lemma WaitingGoesOn(current: bool, spawns: bool, run: seq<Action>)
    requires Runs(Begin(current, spawns), run) && !After(Begin(current, spawns), run).stopped
    requires After(Begin(current, spawns), run).progress in {Moving, Waiting}
    ensures exists t :: After(Begin(current, spawns), run).At(t).Live()
  {
    var s := Begin(current, spawns);
    BeginFits(current, spawns);
    assert s.progress == Moving ==> s.At(0).Live();
    RunKeepsAt(s, run);
  }

  /** A retry is let through exactly when the move is shown as failed, nobody is at it and
      the gate is not stopped; any other changes nothing. */
  lemma RetryIffFailed(current: bool, spawns: bool, run: seq<Action>, t: int)
    requires Runs(Begin(current, spawns), run) && After(Begin(current, spawns), run).At(t).Gone?
    ensures
      var s := After(Begin(current, spawns), run);
      var after := Step(s, Retry(t));
      if s.progress == Failed && !s.stopped && forall u :: !s.At(u).Live() then
        after.At(t) == Approved && after.progress == Moving
      else after == s
  {
    var s := After(Begin(current, spawns), run);
    BeginFits(current, spawns);
    EveryRunFits(Begin(current, spawns), run);
    if s.progress == Failed && !s.running {
      forall u ensures !s.At(u).Live() {
        assert AgentFits(s, u);
      }
    }
  }
}
