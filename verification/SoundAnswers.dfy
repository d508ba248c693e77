/** What callers of the wave cache are told, whichever thread decodes and whatever was
    held before: the wave exactly when there is one, as far as reading works. */
module SoundAnswers {
  import opened Wrappers
  import opened Recency
  import opened SoundCache

  /** What may be told of `id`, some read having failed or not, some having worked or
      not. */
  predicate True(c: Setting, id: int, outcome: Outcome, failed: bool, worked: bool) {
    match outcome
    case Found(w) => w.id == id && c.bytes(id).Some? && worked
    case NoWave => c.bytes(id).None? && worked
    case ReadError => failed
  }

  predicate ThreadTrue(c: Setting, s: State, t: int, failed: bool, worked: bool) {
    var x := s.At(t);
    && ((x.HasOutcome? || x.Finishing? || x.Served?) ==> True(c, x.id, x.outcome, failed, worked))
    && ((x.Finishing? || x.Served?) && x.outcome.NoWave? ==> x.id in s.missing)
  }

  predicate CellTrue(c: Setting, cell: Cell, failed: bool, worked: bool) {
    cell.work.Full? ==> True(c, cell.id, cell.work.outcome, failed, worked)
  }

  /** A wave held is the wave of its id. */
  predicate Genuine(c: Setting, items: seq<Item<int, Wave>>) {
    forall item | item in items :: item.value.id == item.key && c.bytes(item.key).Some?
  }

  predicate AnswerTrue(c: Setting, s: State, answer: (int, Outcome), failed: bool, worked: bool) {
    True(c, answer.0, answer.1, failed, worked) && (answer.1.NoWave? ==> answer.0 in s.missing)
  }

  ghost predicate AllTrue(c: Setting, s: State, failed: bool, worked: bool) {
    && (forall t {:trigger ThreadTrue(c, s, t, failed, worked)} :: ThreadTrue(c, s, t, failed, worked))
    && (forall cell | cell in s.cells :: CellTrue(c, cell, failed, worked))
    && (forall answer | answer in s.served :: AnswerTrue(c, s, answer, failed, worked))
    && (forall id | id in s.missing :: c.bytes(id).None?)
    && Genuine(c, s.items) && (s.items != [] || s.missing != {} ==> worked)
  }

  predicate FailsIn(a: Action) {
    a.Decoded? && !a.readable
  }

  predicate WorksIn(a: Action) {
    a.Decoded? && a.readable
  }

  predicate SomeFails(run: seq<Action>) {
    exists a :: a in run && FailsIn(a)
  }

  predicate SomeWorks(run: seq<Action>) {
    exists a :: a in run && WorksIn(a)
  }

  lemma HeldIsGenuine(c: Setting, items: seq<Item<int, Wave>>, id: int)
    requires Genuine(c, items) && Lookup(items, id).Some?
    ensures Lookup(items, id).value.id == id && c.bytes(id).Some? && items != []
  {
    assert items[IndexOf(items, id)] in items;
  }

  lemma TouchedIsGenuine(c: Setting, items: seq<Item<int, Wave>>, id: int)
    requires Genuine(c, items)
    ensures Genuine(c, Touched(items, id)) && (Touched(items, id) == [] <==> items == [])
  {
    TouchedKeepsItems(items, id);
    forall item | item in Touched(items, id) ensures item in items {
      assert item in multiset(items);
    }
  }

  lemma AdmittedIsGenuine(c: Setting, items: seq<Item<int, Wave>>, w: Wave)
    requires Genuine(c, items) && c.bytes(w.id).Some?
    ensures Genuine(c, Admitted(c, items, w).0) && Admitted(c, items, w).1.id == w.id
  {
    var after := Admitted(c, items, w).0;
    if Lookup(items, w.id).Some? {
      HeldIsGenuine(c, items, w.id);
    }
    forall item | item in after ensures item.value.id == item.key && c.bytes(item.key).Some? {
      var k :| 0 <= k < |after| && after[k] == item;
      OfferedHoldsNothingElse(items, Budget(c, items), c.ItemOf(w), k);
    }
  }

  lemma StepKeepsHeld(c: Setting, s: State, a: Action, failed: bool, worked: bool)
    requires Enabled(s, a) && AllTrue(c, s, failed, worked)
    ensures Genuine(c, Step(c, s, a).items) && (Step(c, s, a).items != [] || Step(c, s, a).missing != {} ==> worked)
    ensures s.missing <= Step(c, s, a).missing && forall id | id in Step(c, s, a).missing :: c.bytes(id).None?
  {
    var x := s.At(a.t);
    assert ThreadTrue(c, s, a.t, failed, worked);
    if a.Advance? && (x.Entered? || x.Locked?) {
      TouchedIsGenuine(c, s.items, x.id);
    } else if a.Advance? && x.HasOutcome? && x.outcome.Found? {
      AdmittedIsGenuine(c, s.items, x.outcome.wave);
    }
  }

  lemma StepTellsTrue(c: Setting, s: State, a: Action, failed: bool, worked: bool)
    requires SoundCache.Fits(s) && Enabled(s, a) && AllTrue(c, s, failed, worked)
    ensures ThreadTrue(c, Step(c, s, a), a.t, failed || FailsIn(a), worked || WorksIn(a))
  {
    var x := s.At(a.t);
    assert ThreadFits(s, a.t) && ThreadTrue(c, s, a.t, failed, worked);
    if a.Advance? && (x.Entered? || x.Locked?) {
      if Lookup(s.items, x.id).Some? {
        HeldIsGenuine(c, s.items, x.id);
      }
    } else if a.Advance? && x.HasOutcome? && x.outcome.Found? {
      AdmittedIsGenuine(c, s.items, x.outcome.wave);
    } else if a.Advance? && x.HasCell? {
      assert s.cells[x.cell] in s.cells;
    }
  }

  lemma StepCellsTrue(c: Setting, s: State, a: Action, failed: bool, worked: bool)
    requires SoundCache.Fits(s) && Enabled(s, a) && AllTrue(c, s, failed, worked)
    ensures forall cell | cell in Step(c, s, a).cells :: CellTrue(c, cell, failed || FailsIn(a), worked || WorksIn(a))
  {
    var x, after := s.At(a.t), Step(c, s, a);
    assert ThreadFits(s, a.t);
    forall cell | cell in after.cells ensures CellTrue(c, cell, failed || FailsIn(a), worked || WorksIn(a)) {
      var k :| 0 <= k < |after.cells| && after.cells[k] == cell;
      assert k < |s.cells| ==> s.cells[k] in s.cells;
    }
  }

  lemma StepAnswersTrue(c: Setting, s: State, a: Action, failed: bool, worked: bool)
    requires SoundCache.Fits(s) && Enabled(s, a) && AllTrue(c, s, failed, worked)
    ensures forall answer {:trigger answer in Step(c, s, a).served} | answer in Step(c, s, a).served ::
      AnswerTrue(c, Step(c, s, a), answer, failed || FailsIn(a), worked || WorksIn(a))
  {
    var after := Step(c, s, a);
    StepKeepsHeld(c, s, a, failed, worked);
    StepTellsTrue(c, s, a, failed, worked);
    forall answer | answer in after.served
      ensures AnswerTrue(c, after, answer, failed || FailsIn(a), worked || WorksIn(a))
    {
      if answer in s.served {
        assert AnswerTrue(c, s, answer, failed, worked);
      } else {
        assert after.At(a.t).Served? && answer == (after.At(a.t).id, after.At(a.t).outcome);
      }
    }
  }

  lemma StepKeepsTrue(c: Setting, s: State, a: Action, failed: bool, worked: bool)
    requires SoundCache.Fits(s) && Enabled(s, a) && AllTrue(c, s, failed, worked)
    ensures AllTrue(c, Step(c, s, a), failed || FailsIn(a), worked || WorksIn(a))
  {
    var after, failedNow, workedNow := Step(c, s, a), failed || FailsIn(a), worked || WorksIn(a);
    StepKeepsHeld(c, s, a, failed, worked);
    StepCellsTrue(c, s, a, failed, worked);
    StepAnswersTrue(c, s, a, failed, worked);
    forall t ensures ThreadTrue(c, after, t, failedNow, workedNow) {
      assert ThreadTrue(c, s, t, failed, worked);
      if t == a.t {
        StepTellsTrue(c, s, a, failed, worked);
      } else {
        assert after.At(t) == s.At(t);
      }
    }
  }

  lemma {:induction false} RunKeepsTrue(c: Setting, s: State, run: seq<Action>, failed: bool, worked: bool)
    requires SoundCache.Fits(s) && AllTrue(c, s, failed, worked) && Runs(c, s, run)
    ensures AllTrue(c, After(c, s, run), failed || SomeFails(run), worked || SomeWorks(run))
    decreases |run|
  {
    if run != [] {
      var a, rest := run[0], run[1..];
      StepFits(c, s, a);
      StepKeepsTrue(c, s, a, failed, worked);
      RunKeepsTrue(c, Step(c, s, a), rest, failed || FailsIn(a), worked || WorksIn(a));
      FirstOrRest(run);
    }
  }

  lemma FirstOrRest(run: seq<Action>)
    requires run != []
    ensures SomeFails(run) <==> FailsIn(run[0]) || SomeFails(run[1..])
    ensures SomeWorks(run) <==> WorksIn(run[0]) || SomeWorks(run[1..])
  {
    assert run == [run[0]] + run[1..];
    assert run[0] in run && forall a | a in run[1..] :: a in run;
  }

  /** Whoever decodes for whom: a caller is given the wave of the id it asked for only if
      there is one, told there is none only if there is none, which is remembered, and
      given an error only if a read failed. */
  lemma EveryAnswerIsTrue(c: Setting, run: seq<Action>, i: nat)
    requires Runs(c, START, run) && i < |After(c, START, run).served|
    ensures
      var s := After(c, START, run);
      match s.served[i].1
      case Found(w) => w.id == s.served[i].0 && c.bytes(s.served[i].0).Some? && SomeWorks(run)
      case NoWave => c.bytes(s.served[i].0).None? && s.served[i].0 in s.missing && SomeWorks(run)
      case ReadError => SomeFails(run)
  {
    RunKeepsTrue(c, START, run, false, false);
    assert After(c, START, run).served[i] in After(c, START, run).served;
  }

  /** With no failed read every caller is given the wave exactly when it exists. */
  lemma FoundIffThere(c: Setting, run: seq<Action>, i: nat)
    requires Runs(c, START, run) && i < |After(c, START, run).served| && !SomeFails(run)
    ensures
      var (id, outcome) := After(c, START, run).served[i];
      if c.bytes(id).Some? then outcome.Found? && outcome.wave.id == id else outcome == NoWave
  {
    EveryAnswerIsTrue(c, run, i);
  }

  /** Nothing is remembered as missing that is there. */
  lemma MissingIsMissing(c: Setting, run: seq<Action>, id: int)
    requires Runs(c, START, run) && id in After(c, START, run).missing
    ensures c.bytes(id).None?
  {
    RunKeepsTrue(c, START, run, false, false);
  }

  // ---- The bytes held ------------------------------------------------------------------

  /** What the waves held take, as they are stored. */
  function StoredBytes(c: Setting, items: seq<Item<int, Wave>>): nat {
    if items == [] then 0
    else (match c.bytes(items[0].key) case Some(n) => n case None => 0) + StoredBytes(c, items[1..])
  }

  lemma {:induction false} ChargedForAll(c: Setting, items: seq<Item<int, Wave>>)
    requires Charged(c, items)
    ensures StoredBytes(c, items) <= TotalSize(items) && |items| <= TotalSize(items)
  {
    if items != [] {
      assert items[0] in items && forall item | item in items[1..] :: item in items;
      ChargedForAll(c, items[1..]);
    }
  }

  /** The waves held never take more than the budget, and however short they are there
      are never more of them than that. */
  lemma HeldFitsBudget(c: Setting, run: seq<Action>)
    requires Runs(c, START, run)
    ensures StoredBytes(c, After(c, START, run).items) <= c.budget && |After(c, START, run).items| <= c.budget
  {
    EveryRunStaysBounded(c, START, run);
    ChargedForAll(c, After(c, START, run).items);
  }
}
