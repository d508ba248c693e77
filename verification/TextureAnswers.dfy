/** When a reader of the texture cache is given nothing: exactly when its own decode
    failed, never because another's did. */
module TextureAnswers {
  import opened Wrappers
  import opened Recency
  import opened TextureFlights

  /** The threads whose own decode for their call failed, once `a` is done. A reader woken
      with a texture makes none of its own. */
  function FailingAt<K, V>(x: Thread<K, V>, before: set<int>, a: Action<K>): set<int> {
    match a
    case Call(t, _) => before - {t}
    case Decode(t, succeeds) => if succeeds then before - {t} else before + {t}
    case Serve(t, succeeds) => if x.Woken? && x.outcome.None? && !succeeds then before + {t} else before - {t}
    case _ => before
  }

  function FailingAfter<K(==), V>(c: Setting<K, V>, s: State<K, V>, run: seq<Action<K>>, before: set<int>): set<int>
    requires Runs(c, s, run)
    decreases |run|
  {
    if run == [] then before
    else FailingAfter(c, Step(c, s, run[0]), run[1..], FailingAt(s.At(run[0].t), before, run[0]))
  }

  /** What a thread holds for its call is nothing exactly if its own decode failed. */
  predicate Told<K, V>(x: Thread<K, V>, failed: bool) {
    match x
    case Holding(_, _, outcome) => outcome.None? <==> failed
    case Published(_, _, outcome) => outcome.None? <==> failed
    case Landing(_, _, outcome) => outcome.None? <==> failed
    case Served(_, result) => result.None? <==> failed
    case _ => !failed
  }

  ghost predicate AllTold<K, V>(s: State<K, V>, failing: set<int>) {
    forall t {:trigger s.At(t)} :: Told(s.At(t), t in failing)
  }

  lemma StepTells<K(!new), V>(c: Setting<K, V>, s: State<K, V>, a: Action<K>, failing: set<int>)
    requires TextureFlights.Fits(s) && Enabled(s, a) && AllTold(s, failing)
    ensures AllTold(Step(c, s, a), FailingAt(s.At(a.t), failing, a))
  {
    var after, failed := Step(c, s, a), FailingAt(s.At(a.t), failing, a);
    assert ThreadFits(s, a.t) && Told(s.At(a.t), a.t in failing);
    forall t ensures Told(after.At(t), t in failed) {
      assert Told(s.At(t), t in failing) && ThreadFits(s, t);
    }
  }

  lemma {:induction false} RunTells<K(!new), V>(c: Setting<K, V>, s: State<K, V>, run: seq<Action<K>>, failing: set<int>)
    requires TextureFlights.Fits(s) && AllTold(s, failing) && Runs(c, s, run)
    ensures AllTold(After(c, s, run), FailingAfter(c, s, run, failing))
    decreases |run|
  {
    if run != [] {
      StepFits(c, s, run[0]);
      StepTells(c, s, run[0], failing);
      RunTells(c, Step(c, s, run[0]), run[1..], FailingAt(s.At(run[0].t), failing, run[0]));
    }
  }

  /** However the threads interleave, a reader is given nothing exactly when the decode it
      made itself for that call failed. */
  lemma NothingIffOwnDecodeFailed<K(!new), V>(c: Setting<K, V>, run: seq<Action<K>>, t: int)
    requires Runs(c, Start(), run) && After(c, Start(), run).At(t).Served?
    ensures After(c, Start(), run).At(t).result.None? <==> t in FailingAfter(c, Start<K, V>(), run, {})
  {
    RunTells(c, Start<K, V>(), run, {});
    assert Told(After(c, Start<K, V>(), run).At(t), t in FailingAfter(c, Start<K, V>(), run, {}));
  }

  predicate NoneFails<K(==)>(run: seq<Action<K>>) {
    forall a | a in run :: (a.Decode? || a.Serve?) ==> a.succeeds
  }

  lemma {:induction false} NothingFailing<K(!new), V>(c: Setting<K, V>, s: State<K, V>, run: seq<Action<K>>)
    requires Runs(c, s, run) && NoneFails(run)
    ensures FailingAfter(c, s, run, {}) == {}
    decreases |run|
  {
    if run != [] {
      assert run[0] in run && forall a | a in run[1..] :: a in run;
      assert FailingAt(s.At(run[0].t), {}, run[0]) == {};
      NothingFailing(c, Step(c, s, run[0]), run[1..]);
    }
  }

  /** With no decode failing every reader is given what its key decodes to. */
  lemma EveryReaderIsServed<K(!new), V>(c: Setting<K, V>, run: seq<Action<K>>, t: int)
    requires Runs(c, Start(), run) && NoneFails(run) && After(c, Start(), run).At(t).Served?
    ensures var x := After(c, Start(), run).At(t); x.result == Some(c.decoded(x.key))
  {
    NothingIffOwnDecodeFailed(c, run, t);
    NothingFailing(c, Start<K, V>(), run);
    StartIsGenuine(c);
    EveryTextureIsGenuine(c, Start(), run);
    assert GenuineThread(c, After(c, Start(), run).At(t));
  }
}
