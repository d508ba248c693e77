/** The decoded-texture cache under concurrent readers. Each lock-protected block
    is one step; threads take steps in any order. While a key is being decoded
    the readers that ask for it wait on the flight its leader made. */
module TextureFlights {
  import opened Wrappers
  import opened Recency

  /** What a successful decode of a key gives, how big it is, and the limits. A
      decode may also fail, at any time. */
  datatype Setting<!K, !V> = Setting(decoded: K -> V, size: V -> nat, limits: Limits)

  /** Where a thread is in a call. */
  datatype Thread<K, V> =
    | Idle
    | Missed(key: K)                                    // the cache did not have it
    | Leading(key: K, flight: nat)                      // decoding for everyone
    | Holding(key: K, flight: nat, outcome: Option<V>)  // decoded, kept or failed
    | Published(key: K, flight: nat, outcome: Option<V>)
    | Landing(key: K, flight: nat, outcome: Option<V>)  // the waiters are awake
    | Looking(key: K, flight: nat)                      // about to look at the flight
    | Asleep(key: K, flight: nat)
    | Woken(key: K, outcome: Option<V>)                 // has seen the flight's outcome
    | Served(key: K, result: Option<V>)
  {
    predicate Undecided() {
      Leading? || Holding?
    }

    predicate Leads() {
      Leading? || Holding? || Published? || Landing?
    }

    /** The waiters have not been woken yet. */
    predicate WillNotify() {
      Leading? || Holding? || Published?
    }

    predicate Follows() {
      Looking? || Asleep?
    }
  }

  /** A decode in progress or over; its maker and key are kept for the proofs. */
  datatype Flight<K, V> = Flight(maker: int, key: K, done: Option<Option<V>>)

  datatype State<K, V> = State(items: seq<Item<K, V>>, inFlight: map<K, nat>, flights: seq<Flight<K, V>>,
                               threads: map<int, Thread<K, V>>) {
    function At(t: int): Thread<K, V> {
      if t in threads then threads[t] else Idle
    }

    function Put(t: int, thread: Thread<K, V>): State<K, V> {
      this.(threads := threads[t := thread])
    }
  }

  function Start<K, V>(): State<K, V> {
    State([], map[], [], map[])
  }

  datatype Action<K> =
    | Call(t: int, key: K)
    | Board(t: int)
    | Decode(t: int, succeeds: bool)
    | Publish(t: int)
    | Notify(t: int)
    | Land(t: int)
    | Look(t: int)
    | WakeUp(t: int)   // a condition variable may also wake a waiter for no reason
    | Serve(t: int, succeeds: bool)

  // ---- Steps ----------------------------------------------------------------

  predicate Enabled<K(==), V>(s: State<K, V>, a: Action<K>) {
    match a
    case Call(t, _) => s.At(t).Idle? || s.At(t).Served?
    case Board(t) => s.At(t).Missed?
    case Decode(t, _) => s.At(t).Leading?
    case Publish(t) => s.At(t).Holding?
    case Notify(t) => s.At(t).Published?
    case Land(t) => s.At(t).Landing?
    case Look(t) => s.At(t).Looking?
    case WakeUp(t) => s.At(t).Asleep?
    case Serve(t, _) => s.At(t).Woken?
  }

  /** Offer a texture to the cache; the one to use. */
  function Retained<K(==), V>(c: Setting<K, V>, items: seq<Item<K, V>>, key: K, v: V): (seq<Item<K, V>>, V) {
    Offered(items, c.limits, Item(key, v, c.size(v)))
  }

  /** The threads after everyone asleep on `flight` is woken. */
  function Awake<K, V>(threads: map<int, Thread<K, V>>, flight: nat): map<int, Thread<K, V>> {
    map t | t in threads ::
      if threads[t].Asleep? && threads[t].flight == flight then Looking(threads[t].key, flight) else threads[t]
  }

  function Step<K(==), V>(c: Setting<K, V>, s: State<K, V>, a: Action<K>): State<K, V>
    requires Enabled(s, a)
  {
    match a
    case Call(t, key) =>
      var found := Lookup(s.items, key);
      s.(items := Touched(s.items, key)).Put(t, if found.Some? then Served(key, found) else Missed(key))
    case Board(t) =>
      var key := s.At(t).key;
      if key in s.inFlight then s.Put(t, Looking(key, s.inFlight[key]))
      else
        var f := |s.flights|;
        s.(inFlight := s.inFlight[key := f], flights := s.flights + [Flight(t, key, None)]).Put(t, Leading(key, f))
    case Decode(t, succeeds) =>
      var (key, f) := (s.At(t).key, s.At(t).flight);
      if !succeeds then s.Put(t, Holding(key, f, None))
      else
        var (items, used) := Retained(c, s.items, key, c.decoded(key));
        s.(items := items).Put(t, Holding(key, f, Some(used)))
    case Publish(t) =>
      var (key, f, outcome) := (s.At(t).key, s.At(t).flight, s.At(t).outcome);
      if f < |s.flights| then
        s.(flights := s.flights[f := s.flights[f].(done := Some(outcome))]).Put(t, Published(key, f, outcome))
      else s
    case Notify(t) =>
      var (key, f, outcome) := (s.At(t).key, s.At(t).flight, s.At(t).outcome);
      s.(threads := Awake(s.threads, f)).Put(t, Landing(key, f, outcome))
    case Land(t) =>
      s.(inFlight := s.inFlight - {s.At(t).key}).Put(t, Served(s.At(t).key, s.At(t).outcome))
    case Look(t) =>
      var (key, f) := (s.At(t).key, s.At(t).flight);
      if f < |s.flights| && s.flights[f].done.Some? then s.Put(t, Woken(key, s.flights[f].done.value))
      else s.Put(t, Asleep(key, f))
    case WakeUp(t) => s.Put(t, Looking(s.At(t).key, s.At(t).flight))
    case Serve(t, succeeds) =>
      var (key, outcome) := (s.At(t).key, s.At(t).outcome);
      if outcome.None? && !succeeds then s.Put(t, Served(key, None))
      else
        var v := if outcome.Some? then outcome.value else c.decoded(key);
        var (items, used) := Retained(c, s.items, key, v);
        s.(items := items).Put(t, Served(key, Some(used)))
  }

  predicate Runs<K(==), V>(c: Setting<K, V>, s: State<K, V>, run: seq<Action<K>>)
    decreases |run|
  {
    run != [] ==> Enabled(s, run[0]) && Runs(c, Step(c, s, run[0]), run[1..])
  }

  function After<K(==), V>(c: Setting<K, V>, s: State<K, V>, run: seq<Action<K>>): State<K, V>
    requires Runs(c, s, run)
    decreases |run|
  {
    if run == [] then s else After(c, Step(c, s, run[0]), run[1..])
  }

  // ---- What every step keeps ------------------------------------------------------

  /** A thread's flight is there, and says what the thread says. */
  ghost predicate ThreadFits<K, V>(s: State<K, V>, t: int) {
    var x := s.At(t);
    && (x.Leads() ==>
          && x.flight < |s.flights| && s.flights[x.flight].maker == t && s.flights[x.flight].key == x.key
          && x.key in s.inFlight && s.inFlight[x.key] == x.flight
          && (x.Undecided() <==> s.flights[x.flight].done.None?)
          && (!x.Undecided() ==> s.flights[x.flight].done == Some(x.outcome)))
    && (x.Follows() ==> x.flight < |s.flights| && s.flights[x.flight].key == x.key)
    && (x.Asleep? ==> s.At(s.flights[x.flight].maker).WillNotify() && s.At(s.flights[x.flight].maker).flight == x.flight)
  }

  /** An open flight's maker is still on it. */
  ghost predicate FlightFits<K, V>(s: State<K, V>, f: nat)
    requires f < |s.flights|
  {
    var maker := s.At(s.flights[f].maker);
    s.flights[f].done.None? ==> maker.Undecided() && maker.flight == f
  }

  ghost predicate BoardFits<K, V>(s: State<K, V>, key: K) {
    key in s.inFlight ==>
      var f := s.inFlight[key];
      && f < |s.flights| && s.flights[f].key == key
      && s.At(s.flights[f].maker).Leads() && s.At(s.flights[f].maker).flight == f
  }

  ghost predicate Fits<K(!new), V>(s: State<K, V>) {
    && (forall t {:trigger ThreadFits(s, t)} :: ThreadFits(s, t))
    && (forall f: nat {:trigger FlightFits(s, f)} | f < |s.flights| :: FlightFits(s, f))
    && (forall key {:trigger BoardFits(s, key)} :: BoardFits(s, key))
  }

  /** A step of a thread that leads nothing, before or after. */
  lemma QuietStepFits<K(!new), V>(s: State<K, V>, t: int, x: Thread<K, V>, after: State<K, V>)
    requires Fits(s) && !s.At(t).Leads() && !x.Leads()
    requires after.inFlight == s.inFlight && after.flights == s.flights && after.threads == s.threads[t := x]
    requires ThreadFits(after, t)
    ensures Fits(after)
  {
    forall u ensures ThreadFits(after, u) {
      assert ThreadFits(s, u);
    }
    forall f: nat | f < |after.flights| ensures FlightFits(after, f) {
      assert FlightFits(s, f);
    }
    forall key ensures BoardFits(after, key) {
      assert BoardFits(s, key);
    }
  }

  /** A leader moves on without touching its flight's outcome. */
  lemma LeaderStepFits<K(!new), V>(s: State<K, V>, t: int, x: Thread<K, V>, after: State<K, V>)
    requires Fits(s) && s.At(t).Leads() && x.Leads() && x.key == s.At(t).key && x.flight == s.At(t).flight
    requires x.WillNotify() && x.Undecided()
    requires s.At(t).Undecided()
    requires after.inFlight == s.inFlight && after.flights == s.flights && after.threads == s.threads[t := x]
    ensures Fits(after)
  {
    assert ThreadFits(s, t);
    forall u ensures ThreadFits(after, u) {
      assert ThreadFits(s, u);
    }
    forall f: nat | f < |after.flights| ensures FlightFits(after, f) {
      assert FlightFits(s, f);
    }
    forall key ensures BoardFits(after, key) {
      assert BoardFits(s, key);
    }
  }

  lemma BoardStepFits<K(!new), V>(c: Setting<K, V>, s: State<K, V>, t: int)
    requires Fits(s) && s.At(t).Missed?
    ensures Fits(Step(c, s, Board(t)))
  {
    var key, after := s.At(t).key, Step(c, s, Board(t));
    assert BoardFits(s, key);
    if key in s.inFlight {
      QuietStepFits(s, t, Looking(key, s.inFlight[key]), after);
    } else {
      forall u ensures ThreadFits(after, u) {
        assert ThreadFits(s, u);
      }
      forall f: nat | f < |after.flights| ensures FlightFits(after, f) {
        if f < |s.flights| {
          assert FlightFits(s, f);
        }
      }
      forall k ensures BoardFits(after, k) {
        assert BoardFits(s, k);
      }
    }
  }

  lemma PublishStepFits<K(!new), V>(c: Setting<K, V>, s: State<K, V>, t: int)
    requires Fits(s) && s.At(t).Holding?
    ensures Fits(Step(c, s, Publish(t)))
  {
    var after := Step(c, s, Publish(t));
    assert ThreadFits(s, t);
    forall u ensures ThreadFits(after, u) {
      assert ThreadFits(s, u);
    }
    forall f: nat | f < |after.flights| ensures FlightFits(after, f) {
      assert FlightFits(s, f);
    }
    forall key ensures BoardFits(after, key) {
      assert BoardFits(s, key);
    }
  }

  lemma NotifyStepFits<K(!new), V>(c: Setting<K, V>, s: State<K, V>, t: int)
    requires Fits(s) && s.At(t).Published?
    ensures Fits(Step(c, s, Notify(t)))
  {
    var after := Step(c, s, Notify(t));
    assert ThreadFits(s, t);
    forall u ensures ThreadFits(after, u) {
      assert ThreadFits(s, u);
    }
    forall f: nat | f < |after.flights| ensures FlightFits(after, f) {
      assert FlightFits(s, f);
    }
    forall key ensures BoardFits(after, key) {
      assert BoardFits(s, key);
    }
  }

  lemma LandStepFits<K(!new), V>(c: Setting<K, V>, s: State<K, V>, t: int)
    requires Fits(s) && s.At(t).Landing?
    ensures Fits(Step(c, s, Land(t)))
  {
    var after := Step(c, s, Land(t));
    assert ThreadFits(s, t);
    forall u ensures ThreadFits(after, u) {
      assert ThreadFits(s, u);
    }
    forall f: nat | f < |after.flights| ensures FlightFits(after, f) {
      assert FlightFits(s, f);
    }
    forall key ensures BoardFits(after, key) {
      assert BoardFits(s, key);
    }
  }

  lemma LookStepFits<K(!new), V>(c: Setting<K, V>, s: State<K, V>, t: int)
    requires Fits(s) && s.At(t).Looking?
    ensures Fits(Step(c, s, Look(t)))
  {
    assert ThreadFits(s, t);
    assert FlightFits(s, s.At(t).flight);
    var after := Step(c, s, Look(t));
    QuietStepFits(s, t, after.At(t), after);
  }

  lemma StepFits<K(!new), V>(c: Setting<K, V>, s: State<K, V>, a: Action<K>)
    requires Fits(s) && Enabled(s, a)
    ensures Fits(Step(c, s, a))
  {
    var after := Step(c, s, a);
    assert ThreadFits(s, a.t);
    match a
    case Call(t, _) => QuietStepFits(s, t, after.At(t), after);
    case Board(t) => BoardStepFits(c, s, t);
    case Decode(t, _) => LeaderStepFits(s, t, after.At(t), after);
    case Publish(t) => PublishStepFits(c, s, t);
    case Notify(t) => NotifyStepFits(c, s, t);
    case Land(t) => LandStepFits(c, s, t);
    case Look(t) => LookStepFits(c, s, t);
    case WakeUp(t) => QuietStepFits(s, t, after.At(t), after);
    case Serve(t, _) => QuietStepFits(s, t, after.At(t), after);
  }

  lemma {:induction false} EveryRunFits<K(!new), V>(c: Setting<K, V>, s: State<K, V>, run: seq<Action<K>>)
    requires Fits(s) && Runs(c, s, run)
    ensures Fits(After(c, s, run))
    decreases |run|
  {
    if run != [] {
      StepFits(c, s, run[0]);
      EveryRunFits(c, Step(c, s, run[0]), run[1..]);
    }
  }

  // ---- What readers can rely on -----------------------------------------------------

  /** However the threads interleave, a key is decoded by one leader at a time. */
  lemma OneLeaderPerKey<K(!new), V>(c: Setting<K, V>, run: seq<Action<K>>, t: int, u: int)
    requires Runs(c, Start(), run)
    requires After(c, Start(), run).At(t).Leads() && After(c, Start(), run).At(u).Leads()
    requires After(c, Start(), run).At(t).key == After(c, Start(), run).At(u).key
    ensures t == u
  {
    var s := After(c, Start<K, V>(), run);
    EveryRunFits(c, Start(), run);
    assert ThreadFits(s, t) && ThreadFits(s, u);
  }

  /** The steps the maker of a flight still takes before its waiters are awake. */
  function Remaining<K, V>(x: Thread<K, V>, t: int): seq<Action<K>>
    requires x.WillNotify()
  {
    (if x.Leading? then [Decode(t, true)] else [])
    + (if x.Undecided() then [Publish(t)] else [])
    + [Notify(t)]
  }

  /** No follower is left waiting: in every reachable state a thread asleep on a
      flight is seen off by the flight's maker, whose next steps (at most three,
      none of which waits for anyone) wake it to an outcome. */
  lemma NobodyIsStranded<K(!new), V>(c: Setting<K, V>, s: State<K, V>, t: int)
    requires Fits(s) && s.At(t).Asleep?
    ensures
      var f := s.At(t).flight;
      && f < |s.flights|
      && var maker := s.flights[f].maker;
      && s.At(maker).WillNotify()
      && var run := Remaining(s.At(maker), maker) + [Look(t)];
      && |run| <= 4 && Runs(c, s, run) && After(c, s, run).At(t).Woken?
  {
    assert ThreadFits(s, t);
    var f := s.At(t).flight;
    var maker := s.flights[f].maker;
    assert ThreadFits(s, maker);
    if s.At(maker).Leading? {
      DecodeThenWake(c, s, t, maker);
      assert Remaining(s.At(maker), maker) + [Look(t)] == [Decode(maker, true), Publish(maker), Notify(maker), Look(t)];
    } else if s.At(maker).Holding? {
      PublishThenWake(c, s, t, maker);
      assert Remaining(s.At(maker), maker) + [Look(t)] == [Publish(maker), Notify(maker), Look(t)];
    } else {
      NotifyThenWake(c, s, t, maker);
      assert Remaining(s.At(maker), maker) + [Look(t)] == [Notify(maker), Look(t)];
    }
  }

  lemma NotifyThenWake<K(!new), V>(c: Setting<K, V>, s: State<K, V>, t: int, maker: int)
    requires Fits(s) && s.At(t).Asleep? && s.At(maker).Published? && s.At(maker).flight == s.At(t).flight
    ensures Runs(c, s, [Notify(maker), Look(t)]) && After(c, s, [Notify(maker), Look(t)]).At(t).Woken?
  {
    assert ThreadFits(s, t) && ThreadFits(s, maker);
    var s1 := Step(c, s, Notify(maker));
    var last: seq<Action<K>> := [Look(t)];
    assert [Notify(maker), Look(t)][1..] == last;
    assert last[1..] == [];
    assert Runs(c, s1, last) && After(c, s1, last) == Step(c, s1, Look(t));
    assert ThreadFits(s, t) && s1.At(t).Looking? && s1.flights == s.flights;
  }

  lemma PublishThenWake<K(!new), V>(c: Setting<K, V>, s: State<K, V>, t: int, maker: int)
    requires Fits(s) && s.At(t).Asleep? && s.At(maker).Holding? && s.At(maker).flight == s.At(t).flight
    ensures
      var run := [Publish(maker), Notify(maker), Look(t)];
      Runs(c, s, run) && After(c, s, run).At(t).Woken?
  {
    assert ThreadFits(s, maker);
    StepFits(c, s, Publish(maker));
    NotifyThenWake(c, Step(c, s, Publish(maker)), t, maker);
    var rest: seq<Action<K>> := [Notify(maker), Look(t)];
    assert [Publish(maker), Notify(maker), Look(t)][1..] == rest;
  }

  lemma DecodeThenWake<K(!new), V>(c: Setting<K, V>, s: State<K, V>, t: int, maker: int)
    requires Fits(s) && s.At(t).Asleep? && s.At(maker).Leading? && s.At(maker).flight == s.At(t).flight
    ensures
      var run := [Decode(maker, true), Publish(maker), Notify(maker), Look(t)];
      Runs(c, s, run) && After(c, s, run).At(t).Woken?
  {
    StepFits(c, s, Decode(maker, true));
    PublishThenWake(c, Step(c, s, Decode(maker, true)), t, maker);
    var rest: seq<Action<K>> := [Publish(maker), Notify(maker), Look(t)];
    assert [Decode(maker, true), Publish(maker), Notify(maker), Look(t)][1..] == rest;
  }

  // ---- What readers are given ---------------------------------------------------------

  predicate GenuineItem<K, V(==)>(c: Setting<K, V>, item: Item<K, V>) {
    item.value == c.decoded(item.key) && item.size == c.size(item.value)
  }

  /** A texture in a thread's hands is its key's. */
  predicate GenuineThread<K, V(==)>(c: Setting<K, V>, x: Thread<K, V>) {
    && ((x.Holding? || x.Published? || x.Landing? || x.Woken?) ==> x.outcome in {None, Some(c.decoded(x.key))})
    && (x.Served? ==> x.result in {None, Some(c.decoded(x.key))})
  }

  predicate GenuineFlight<K, V(==)>(c: Setting<K, V>, f: Flight<K, V>) {
    f.done in {None, Some(None), Some(Some(c.decoded(f.key)))}
  }

  ghost predicate Genuine<K(!new), V>(c: Setting<K, V>, s: State<K, V>) {
    && Within(s.items, c.limits)
    && (forall item {:trigger GenuineItem(c, item)} | item in s.items :: GenuineItem(c, item))
    && (forall t {:trigger s.At(t)} :: GenuineThread(c, s.At(t)))
    && (forall f: nat {:trigger s.flights[f]} | f < |s.flights| :: GenuineFlight(c, s.flights[f]))
  }

  lemma RetainedIsGenuine<K(!new), V>(c: Setting<K, V>, s: State<K, V>, key: K)
    requires Genuine(c, s)
    ensures
      var (items, used) := Retained(c, s.items, key, c.decoded(key));
      && used == c.decoded(key) && Within(items, c.limits)
      && forall item | item in items :: GenuineItem(c, item)
  {
    var item := Item(key, c.decoded(key), c.size(c.decoded(key)));
    var i := IndexOf(s.items, key);
    assert i < |s.items| ==> s.items[i] in s.items && GenuineItem(c, s.items[i]);
    OfferedStaysWithin(s.items, c.limits, item);
    var items := Offered(s.items, c.limits, item).0;
    forall kept | kept in items ensures GenuineItem(c, kept) {
      var k :| 0 <= k < |items| && items[k] == kept;
      OfferedHoldsNothingElse(s.items, c.limits, item, k);
    }
  }

  lemma CallIsGenuine<K(!new), V>(c: Setting<K, V>, s: State<K, V>, t: int, key: K)
    requires Genuine(c, s) && Enabled(s, Call(t, key))
    ensures Genuine(c, Step(c, s, Call(t, key)))
  {
    var i := IndexOf(s.items, key);
    assert i < |s.items| ==> s.items[i] in s.items && GenuineItem(c, s.items[i]);
    TouchedKeepsItems(s.items, key);
    TouchedKeepsDistinct(s.items, key);
    forall item | item in Touched(s.items, key) ensures GenuineItem(c, item) {
      assert item in multiset(Touched(s.items, key));
    }
    var after := Step(c, s, Call(t, key));
    forall u ensures GenuineThread(c, after.At(u)) {
      assert GenuineThread(c, s.At(u));
    }
  }

  /** Every texture handed out is the one its key decodes to, and the cache stays
      within its limits. */
  lemma StepIsGenuine<K(!new), V>(c: Setting<K, V>, s: State<K, V>, a: Action<K>)
    requires Genuine(c, s) && Fits(s) && Enabled(s, a)
    ensures Genuine(c, Step(c, s, a))
  {
    var x, after := s.At(a.t), Step(c, s, a);
    assert GenuineThread(c, x) && ThreadFits(s, a.t);
    if a.Call? {
      CallIsGenuine(c, s, a.t, a.key);
    } else {
      if (a.Decode? || a.Serve?) {
        RetainedIsGenuine(c, s, x.key);
      }
      if a.Look? {
        assert GenuineFlight(c, s.flights[x.flight]);
      }
      assert GenuineThread(c, after.At(a.t));
      forall u ensures GenuineThread(c, after.At(u)) {
        assert GenuineThread(c, s.At(u));
      }
    }
  }

  lemma {:induction false} EveryTextureIsGenuine<K(!new), V>(c: Setting<K, V>, s: State<K, V>, run: seq<Action<K>>)
    requires Genuine(c, s) && Fits(s) && Runs(c, s, run)
    ensures Genuine(c, After(c, s, run))
    decreases |run|
  {
    if run != [] {
      StepFits(c, s, run[0]);
      StepIsGenuine(c, s, run[0]);
      EveryTextureIsGenuine(c, Step(c, s, run[0]), run[1..]);
    }
  }

  lemma StartIsGenuine<K(!new), V>(c: Setting<K, V>)
    ensures Fits(Start<K, V>()) && Genuine(c, Start())
  {
  }
}
