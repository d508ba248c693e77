/** The pool of voices and the engine's stock of mixer slots: claims, settings
    put in force, and what every run of them keeps. */
module VoicePools {
  import opened Wrappers
  import opened Voices

  const MIXER_SLOTS := 64
  const RETAIL_VOICES := 16
  const FLAT_PRIORITY := 0.0

  function Clamp(n: int, low: int, high: int): int {
    if n < low then low else if n > high then high else n
  }

  datatype Options = Options(retail: bool, voiceCount: int, usePriority: bool, perWave: int) {
    function Normalized(): Options {
      Options(retail, Clamp(voiceCount, 16, 64), usePriority, Clamp(perWave, 0, 8))
    }

    function VoiceCount(): (n: nat)
      ensures 16 <= n <= MIXER_SLOTS
    {
      if retail then RETAIL_VOICES else Clamp(voiceCount, 16, 64)
    }

    function Cap(): (n: nat)
      ensures n <= 8
    {
      if retail then 0 else Clamp(perWave, 0, 8)
    }

    /** What a voice records of a sound's priority. */
    function Recorded(authored: real): real {
      if !retail && usePriority then authored else FLAT_PRIORITY
    }
  }

  /** The nearest number in a range. */
  predicate IsNearest(r: int, n: int, low: int, high: int) {
    low <= r <= high && (low <= n <= high ==> r == n) && (n < low ==> r == low) && (n > high ==> r == high)
  }

  /** What settings come to: 16 to 64 voices and at most 8 of a wave, as near as they go;
      the retail ring is 16 voices with no cap. */
  lemma OptionsSettle(o: Options)
    ensures
      var r := o.Normalized();
      && r.retail == o.retail && r.usePriority == o.usePriority
      && IsNearest(r.voiceCount, o.voiceCount, 16, 64) && IsNearest(r.perWave, o.perWave, 0, 8)
      && (if o.retail then o.VoiceCount() == 16 else IsNearest(o.VoiceCount(), o.voiceCount, 16, 64))
      && (if o.retail then o.Cap() == 0 else IsNearest(o.Cap(), o.perWave, 0, 8))
  {
  }

  /** `source` is the mixer slot the voice speaks through, 0 for none. */
  datatype Voice = Voice(source: nat, owner: int, inUse: bool, isInterface: bool, priority: real, wave: int, spokeAt: int)

  function Vacant(source: nat): Voice {
    Voice(source, 0, false, false, 0.0, 0, 0)
  }

  datatype Request = Request(owner: int, isInterface: bool, authored: real, wave: int, now: int)

  function SlotOf(v: Voice, playing: set<nat>): Slot {
    Slot(v.inUse, v.inUse && v.source != 0 && v.source in playing, v.priority, v.wave, v.spokeAt)
  }

  function SlotsOf(voices: seq<Voice>, playing: set<nat>): (s: seq<Slot>)
    ensures |s| == |voices|
  {
    seq(|voices|, i requires 0 <= i < |voices| => SlotOf(voices[i], playing))
  }

  function Speaking(v: Voice, request: Request, options: Options): Voice {
    Voice(v.source, request.owner, true, request.isInterface, options.Recorded(request.authored), request.wave, request.now)
  }

  /** The pool and the slots still sounding. */
  datatype Pool = Pool(voices: seq<Voice>, options: Options, cursor: nat) {
    predicate Valid() {
      options == options.Normalized() && |voices| == options.VoiceCount() && cursor < |voices|
    }

    ghost predicate ClaimAnswers(playing: set<nat>, request: Request, r: Option<Claim>)
      requires Valid()
    {
      Answers(SlotsOf(voices, playing), cursor, options.Recorded(request.authored), request.wave, options.Cap(), r)
    }

    function AfterClaim(request: Request, r: Option<Claim>): Pool {
      if r.None? || r.value.slot >= |voices| then this
      else
        var i := r.value.slot;
        Pool(voices[i := Speaking(voices[i], request, options)], options, (i + 1) % |voices|)
    }
  }

  lemma NextPlace(i: nat, n: nat)
    requires i < n
    ensures (i + 1) % n == if i + 1 == n then 0 else i + 1
  {
  }

  /** The voice claimed speaks for the request, through the mixer slot it had, at the
      priority asked for where that counts; the others are as they were, and the next
      search begins after it. */
  lemma ClaimGives(pool: Pool, request: Request, claim: Claim)
    requires pool.Valid() && claim.slot < |pool.voices|
    ensures
      var (i, after) := (claim.slot, pool.AfterClaim(request, Some(claim)));
      && |after.voices| == |pool.voices| && after.options == pool.options
      && after.cursor == (if i + 1 == |pool.voices| then 0 else i + 1)
      && (forall j | 0 <= j < |pool.voices| && j != i :: after.voices[j] == pool.voices[j])
      && after.voices[i] == Voice(pool.voices[i].source, request.owner, true, request.isInterface,
                                  if pool.options.retail || !pool.options.usePriority then 0.0 else request.authored,
                                  request.wave, request.now)
  {
    NextPlace(claim.slot, |pool.voices|);
  }

  /** A new engine's voices, each with its mixer slot. */
  function FirstVoices(n: nat): (voices: seq<Voice>)
    ensures |voices| == n && forall v | v in voices :: !v.inUse && !v.isInterface
  {
    seq(n, i requires 0 <= i < n => Vacant(i + 1))
  }

  class VoicePool {
    var voices: seq<Voice>
    var options: Options
    var cursor: nat

    function State(): Pool
      reads this
    {
      Pool(voices, options, cursor)
    }

    predicate Valid()
      reads this
    {
      State().Valid()
    }

    constructor (options: Options)
      ensures Valid() && State() == Pool(seq(options.VoiceCount(), _ => Vacant(0)), options.Normalized(), 0)
    {
      var normalized := options.Normalized();
      this.options, cursor := normalized, 0;
      voices := seq(normalized.VoiceCount(), _ => Vacant(0));
    }

    /** Claim a voice; `playing` are the mixer slots still sounding. */
    method MakeClaim(playing: set<nat>, request: Request) returns (r: Option<Claim>)
      requires Valid()
      modifies this
      ensures Valid() && old(State()).ClaimAnswers(playing, request, r)
      ensures State() == old(State()).AfterClaim(request, r)
      ensures r.Some? ==> r.value.slot < |voices|
    {
      var recorded := options.Recorded(request.authored);
      var slots := SlotsOf(voices, playing);
      r := Acquire(slots, cursor, recorded, request.wave, options.Cap());
      CutOnlyWhenAllowed(slots, cursor, recorded, request.wave, options.Cap(), r);
      if r.None? {
        return;
      }
      var i := r.value.slot;
      voices := voices[i := Speaking(voices[i], request, options)];
      cursor := (i + 1) % |voices|;
    }

    /** Put settings in force: voices past the new count leave, last first, and
        new ones take their slots from the end of `free`. */
    method ApplyOptions(next: Options, free: seq<nat>) returns (retired: seq<nat>, left: seq<nat>)
      requires Valid()
      modifies this
      ensures Valid() && options == next.Normalized()
      ensures (voices, retired, left) == Resized(old(voices), free, next.VoiceCount())
      ensures |voices| == if next.retail || next.voiceCount < 16 then 16 else if next.voiceCount > 64 then 64 else next.voiceCount
      ensures cursor == if old(cursor) < |voices| then old(cursor) else 0
    {
      options := next.Normalized();
      var target := options.VoiceCount();
      retired := Shrink(target);
      left := Grow(target, free);
      if cursor >= |voices| {
        cursor := 0;
      }
    }

    method Shrink(target: nat) returns (retired: seq<nat>)
      modifies this`voices
      ensures (voices, retired) == Shrunk(old(voices), target) && |voices| <= target
    {
      retired := [];
      ghost var was := voices;
      while |voices| > target
        invariant Shrunk(was, target).0 == Shrunk(voices, target).0
        invariant Shrunk(was, target).1 == retired + Shrunk(voices, target).1
      {
        retired := retired + [voices[|voices| - 1].source];
        voices := voices[..|voices| - 1];
      }
      assert retired + [] == retired;
    }

    method Grow(target: nat, free: seq<nat>) returns (left: seq<nat>)
      requires |voices| <= target
      modifies this`voices
      ensures (voices, left) == Grown(old(voices), free, target) && |voices| == target
    {
      left := free;
      ghost var was := voices;
      while |voices| < target
        invariant |voices| <= target
        invariant Grown(was, free, target) == Grown(voices, left, target)
      {
        var source := if left == [] then 0 else left[|left| - 1];
        left := if left == [] then [] else left[..|left| - 1];
        voices := voices + [Vacant(source)];
      }
    }
  }

  // ---- Resizing ------------------------------------------------------------------

  /** The voices kept, and the slots of those that leave. */
  function Shrunk(voices: seq<Voice>, target: nat): (seq<Voice>, seq<nat>)
    decreases |voices|
  {
    if |voices| <= target then (voices, [])
    else
      var (kept, retired) := Shrunk(voices[..|voices| - 1], target);
      (kept, [voices[|voices| - 1].source] + retired)
  }

  function Grown(voices: seq<Voice>, free: seq<nat>, target: nat): (seq<Voice>, seq<nat>)
    decreases target - |voices|
  {
    if |voices| >= target then (voices, free)
    else if free == [] then Grown(voices + [Vacant(0)], [], target)
    else Grown(voices + [Vacant(free[|free| - 1])], free[..|free| - 1], target)
  }

  function Resized(voices: seq<Voice>, free: seq<nat>, target: nat): (seq<Voice>, seq<nat>, seq<nat>) {
    var (kept, retired) := Shrunk(voices, target);
    var (grown, left) := Grown(kept, free, target);
    (grown, retired, left)
  }

  function Sources(voices: seq<Voice>): (s: seq<nat>)
    ensures |s| == |voices|
  {
    seq(|voices|, i requires 0 <= i < |voices| => voices[i].source)
  }

  /** Every mixer slot belongs to one voice or is free. */
  ghost predicate Permutation(voices: seq<Voice>, free: seq<nat>) {
    && |voices| + |free| == MIXER_SLOTS
    && forall n: nat :: multiset(Sources(voices) + free)[n] == if 1 <= n <= MIXER_SLOTS then 1 else 0
  }

  lemma SourcesOfMore(voices: seq<Voice>, v: Voice)
    ensures Sources(voices + [v]) == Sources(voices) + [v.source]
  {
  }

  lemma LastMoves(a: seq<nat>, b: seq<nat>, x: nat)
    ensures multiset((a + [x]) + b) == multiset(a + (b + [x]))
  {
  }

  lemma {:induction false} ShrunkKeepsSlots(voices: seq<Voice>, free: seq<nat>, target: nat)
    ensures
      var (kept, retired) := Shrunk(voices, target);
      && multiset(Sources(kept) + (free + retired)) == multiset(Sources(voices) + free)
      && |kept| + |retired| == |voices| && kept <= voices
      && |kept| == if |voices| <= target then |voices| else target
    decreases |voices|
  {
    if |voices| <= target {
      assert free + [] == free;
    } else {
      var front, last := voices[..|voices| - 1], voices[|voices| - 1];
      var retired := Shrunk(front, target).1;
      ShrunkKeepsSlots(front, free + [last.source], target);
      assert free + [last.source] + retired == free + ([last.source] + retired);
      assert voices == front + [last];
      SourcesOfMore(front, last);
      LastMoves(Sources(front), free, last.source);
    }
  }

  lemma {:induction false} GrownKeepsSlots(voices: seq<Voice>, free: seq<nat>, target: nat)
    requires |voices| + |free| >= target
    ensures
      var (grown, left) := Grown(voices, free, target);
      && multiset(Sources(grown) + left) == multiset(Sources(voices) + free)
      && |grown| + |left| == |voices| + |free|
      && |grown| == if |voices| < target then target else |voices|
    decreases target - |voices|
  {
    if |voices| < target {
      var front, last := free[..|free| - 1], free[|free| - 1];
      GrownKeepsSlots(voices + [Vacant(last)], front, target);
      assert free == front + [last];
      SourcesOfMore(voices, Vacant(last));
      LastMoves(Sources(voices), front, last);
    }
  }

  /** Through every resize each mixer slot stays with exactly one voice or in
      the stock: none is lost and none is shared. */
  lemma ResizeKeepsPermutation(voices: seq<Voice>, free: seq<nat>, target: nat)
    requires Permutation(voices, free) && target <= MIXER_SLOTS
    ensures
      var (after, retired, left) := Resized(voices, free, target);
      Permutation(after, left + retired) && |after| == target
  {
    var (kept, retired) := Shrunk(voices, target);
    var (after, left) := Grown(kept, free, target);
    ShrunkKeepsSlots(voices, free, target);
    if |voices| <= target {
      GrownKeepsSlots(kept, free, target);
      assert retired == [] && left + retired == left && free + retired == free;
    } else {
      assert after == kept && left == free;
    }
  }

  lemma ClaimKeepsPermutation(pool: Pool, free: seq<nat>, request: Request, r: Option<Claim>)
    requires pool.Valid() && Permutation(pool.voices, free)
    ensures Permutation(pool.AfterClaim(request, r).voices, free)
  {
    assert Sources(pool.AfterClaim(request, r).voices) == Sources(pool.voices);
  }

  // ---- The engine's part ---------------------------------------------------------------

  /** The engine: the pool and the stock of free mixer slots. */
  class Engine {
    const pool: VoicePool
    var free: seq<nat>
    /** The slots told to stop, in order. */
    ghost var stopped: seq<nat>

    ghost predicate Valid()
      reads this, pool
    {
      pool.Valid() && Permutation(pool.voices, free)
    }

    /** Slots are numbered from 1, and the last of the stock is handed out first. */
    constructor (options: Options)
      ensures Valid() && fresh(pool) && pool.options == options.Normalized() && stopped == []
      ensures pool.voices == FirstVoices(pool.options.VoiceCount())
    {
      pool := new VoicePool(options);
      free := seq(MIXER_SLOTS, i requires 0 <= i < MIXER_SLOTS => MIXER_SLOTS - i);
      stopped := [];
      new;
      AssignSources();
    }

    /** Every voice of a new pool takes a slot. */
    method AssignSources()
      requires pool.Valid() && pool.voices == seq(pool.options.VoiceCount(), _ => Vacant(0))
      requires free == seq(MIXER_SLOTS, i requires 0 <= i < MIXER_SLOTS => MIXER_SLOTS - i)
      modifies this, pool
      ensures Valid() && pool.options == old(pool.options) && stopped == old(stopped)
      ensures pool.voices == FirstVoices(pool.options.VoiceCount())
    {
      var n := |pool.voices|;
      ghost var all := free;
      assert free == all[..MIXER_SLOTS];
      for i := 0 to n
        invariant |pool.voices| == n && pool.options == old(pool.options) && pool.cursor == old(pool.cursor) && stopped == old(stopped)
        invariant free == all[..MIXER_SLOTS - i]
        invariant forall j | 0 <= j < n :: pool.voices[j] == Vacant(if j < i then j + 1 else 0)
      {
        var source := free[|free| - 1];
        free := free[..|free| - 1];
        pool.voices := pool.voices[i := pool.voices[i].(source := source)];
      }
      FirstAssigned(n);
      assert pool.voices == FirstVoices(n);
    }

    /** New settings without restarting: the slots of voices that leave are
        silenced and go back to the stock. */
    method ApplyMixerOptions(options: Options)
      requires Valid()
      modifies this, pool
      ensures Valid() && pool.options == options.Normalized()
      ensures stopped == old(stopped) + Resized(old(pool.voices), old(free), options.VoiceCount()).1
      ensures pool.voices == Resized(old(pool.voices), old(free), options.VoiceCount()).0
    {
      ResizeKeepsPermutation(pool.voices, free, options.VoiceCount());
      var retired, left := pool.ApplyOptions(options, free);
      free := left;
      assert left + retired[..0] == left && stopped + retired[..0] == stopped;
      for i := 0 to |retired|
        invariant pool.voices == Resized(old(pool.voices), old(free), options.VoiceCount()).0
        invariant pool.Valid() && pool.options == options.Normalized()
        invariant free == left + retired[..i] && stopped == old(stopped) + retired[..i]
      {
        assert retired[..i + 1] == retired[..i] + [retired[i]];
        stopped := stopped + [retired[i]];
        free := free + [retired[i]];
      }
      assert retired[..|retired|] == retired;
    }
  }

  lemma FirstAssigned(n: nat)
    requires n <= MIXER_SLOTS
    ensures
      var free := seq(MIXER_SLOTS, i requires 0 <= i < MIXER_SLOTS => MIXER_SLOTS - i)[..MIXER_SLOTS - n];
      Permutation(FirstVoices(n), free)
  {
    var voices := FirstVoices(n);
    var free := seq(MIXER_SLOTS, i requires 0 <= i < MIXER_SLOTS => MIXER_SLOTS - i)[..MIXER_SLOTS - n];
    var all := Sources(voices) + free;
    assert |all| == MIXER_SLOTS;
    assert forall i | 0 <= i < MIXER_SLOTS :: all[i] == if i < n then i + 1 else MIXER_SLOTS - (i - n);
    forall m: nat ensures multiset(all)[m] == if 1 <= m <= MIXER_SLOTS then 1 else 0 {
      OnceIn(all, m, if m <= n then m - 1 else if m <= MIXER_SLOTS then MIXER_SLOTS - m + n else -1);
    }
  }

  /** A value at one place of a sequence and no other. */
  lemma {:induction false} OnceIn(s: seq<nat>, m: nat, at: int)
    requires forall i | 0 <= i < |s| :: s[i] == m <==> i == at
    ensures multiset(s)[m] == if 0 <= at < |s| then 1 else 0
  {
    if s != [] {
      var front, last := s[..|s| - 1], s[|s| - 1];
      assert s == front + [last];
      OnceIn(front, m, at);
    }
  }

  // ---- Over a whole run ------------------------------------------------------------------

  /** A pool and the mixer slots still sounding, step by step. A claim starts its
      sound unless the mixer has gone; a sound ends by itself or is silenced. */
  datatype State = State(pool: Pool, playing: set<nat>)

  datatype Step =
    | Claimed(request: Request, claim: Option<Claim>, started: bool)
    | Ended(source: nat)
    | Silenced(i: nat)
    | Resettled(next: Options, free: seq<nat>)

  ghost predicate Follows(s: State, step: Step, t: State) {
    s.pool.Valid() &&
    match step
    case Claimed(request, claim, started) =>
      && s.pool.ClaimAnswers(s.playing, request, claim)
      && t.pool == s.pool.AfterClaim(request, claim)
      && (claim.None? ==> t.playing == s.playing)
      && (claim.Some? && claim.value.slot < |s.pool.voices| ==>
            var source := s.pool.voices[claim.value.slot].source;
            t.playing == if started then s.playing + {source} else s.playing - {source})
    case Ended(source) => t.pool == s.pool && t.playing == s.playing - {source}
    case Silenced(i) =>
      && i < |s.pool.voices| && t.playing == s.playing - {s.pool.voices[i].source}
      && t.pool == s.pool.(voices := s.pool.voices[i := Vacant(s.pool.voices[i].source)])
    case Resettled(next, free) =>
      && t.pool.options == next.Normalized() && t.pool.Valid()
      && t.pool.voices == Resized(s.pool.voices, free, next.VoiceCount()).0
      && t.playing <= s.playing
  }

  ghost predicate Trace(states: seq<State>, steps: seq<Step>) {
    && |states| == |steps| + 1
    && forall i {:trigger steps[i]} | 0 <= i < |steps| :: Follows(states[i], steps[i], states[i + 1])
  }

  predicate OwnSources(voices: seq<Voice>) {
    forall i, j | 0 <= i < j < |voices| :: voices[i].source != voices[j].source
  }

  /** Voices of a pool whose slots are shared out have different slots. */
  lemma PermutationIsOwn(voices: seq<Voice>, free: seq<nat>)
    requires Permutation(voices, free)
    ensures OwnSources(voices)
  {
    forall i, j | 0 <= i < j < |voices| ensures voices[i].source != voices[j].source {
      var all := Sources(voices) + free;
      assert all[i] == voices[i].source && all[j] == voices[j].source;
      if all[i] == all[j] {
        TwiceIn(all, i, j);
      }
      assert multiset(all)[all[i]] <= 1;
    }
  }

  lemma TwiceIn(s: seq<nat>, i: nat, j: nat)
    requires i < j < |s| && s[i] == s[j]
    ensures multiset(s)[s[i]] >= 2
  {
    assert s == s[..i] + [s[i]] + s[i + 1..j] + [s[j]] + s[j + 1..];
  }

  lemma {:induction false} FewerHold(a: seq<Slot>, b: seq<Slot>, w: int, n: nat)
    requires |a| == |b| && n <= |a| && forall j | 0 <= j < |a| :: a[j].Holds(w) ==> b[j].Holds(w)
    ensures CountRange(a, w, 0, n) <= CountRange(b, w, 0, n)
  {
    if n > 0 {
      FewerHold(a, b, w, n - 1);
    }
  }

  lemma FewerKeepsCap(a: seq<Slot>, b: seq<Slot>, cap: int)
    requires |a| == |b| && WithinCap(b, cap)
    requires forall j, w | 0 <= j < |a| :: a[j].Holds(w) ==> b[j].Holds(w)
    ensures WithinCap(a, cap)
  {
    forall w | w != 0 ensures Count(a, w) <= cap {
      FewerHold(a, b, w, |a|);
      assert Count(b, w) <= cap;
    }
  }

  ghost predicate KeepsCap(s: State) {
    OwnSources(s.pool.voices) && WithinCap(SlotsOf(s.pool.voices, s.playing), s.pool.options.Cap())
  }

  lemma ClaimedKeepsCap(s: State, request: Request, claim: Option<Claim>, started: bool, t: State)
    requires Follows(s, Claimed(request, claim, started), t) && KeepsCap(s) && s.pool.options.Cap() > 0
    ensures KeepsCap(t)
  {
    var slots, cap, recorded := SlotsOf(s.pool.voices, s.playing), s.pool.options.Cap(), s.pool.options.Recorded(request.authored);
    CutOnlyWhenAllowed(slots, s.pool.cursor, recorded, request.wave, cap, claim);
    ClaimKeepsCap(slots, s.pool.cursor, recorded, request.wave, cap, claim, request.now);
    if claim.Some? {
      var i := claim.value.slot;
      var after := SlotsOf(t.pool.voices, t.playing);
      var given := Given(slots, i, recorded, request.wave, request.now);
      forall j, w | 0 <= j < |after| ensures after[j].Holds(w) ==> given[j].Holds(w) {
        assert j < i ==> s.pool.voices[j].source != s.pool.voices[i].source;
        assert j > i ==> s.pool.voices[j].source != s.pool.voices[i].source;
      }
      FewerKeepsCap(after, given, cap);
    }
  }

  lemma StepKeepsCap(s: State, step: Step, t: State)
    requires Follows(s, step, t) && KeepsCap(s) && s.pool.options.Cap() > 0 && !step.Resettled?
    ensures KeepsCap(t) && t.pool.options == s.pool.options
  {
    if step.Claimed? {
      ClaimedKeepsCap(s, step.request, step.claim, step.started, t);
    } else {
      FewerKeepsCap(SlotsOf(t.pool.voices, t.playing), SlotsOf(s.pool.voices, s.playing), s.pool.options.Cap());
    }
  }

  /** Over every run of claims with fixed settings, the voices sounding one wave
      never pass its cap. */
  lemma {:induction false} CapIsKept(states: seq<State>, steps: seq<Step>, k: nat)
    requires Trace(states, steps) && k < |states|
    requires KeepsCap(states[0]) && states[0].pool.options.Cap() > 0
    requires forall step | step in steps :: !step.Resettled?
    ensures KeepsCap(states[k]) && states[k].pool.options == states[0].pool.options
  {
    if k > 0 {
      CapIsKept(states, steps, k - 1);
      assert steps[k - 1] in steps;
      StepKeepsCap(states[k - 1], steps[k - 1], states[k]);
    }
  }

  ghost predicate Flat(s: State) {
    s.pool.options.retail && forall v | v in s.pool.voices :: v.priority == FLAT_PRIORITY
  }

  lemma {:induction false} ShrunkHolds(voices: seq<Voice>, target: nat)
    ensures forall v | v in Shrunk(voices, target).0 :: v in voices
    decreases |voices|
  {
    if |voices| > target {
      ShrunkHolds(voices[..|voices| - 1], target);
    }
  }

  lemma {:induction false} GrownHolds(voices: seq<Voice>, free: seq<nat>, target: nat)
    ensures forall v | v in Grown(voices, free, target).0 :: v in voices || v == Vacant(v.source)
    decreases target - |voices|
  {
    if |voices| < target {
      var next := if free == [] then Vacant(0) else Vacant(free[|free| - 1]);
      GrownHolds(voices + [next], if free == [] then [] else free[..|free| - 1], target);
    }
  }

  lemma StepKeepsFlat(s: State, step: Step, t: State)
    requires Follows(s, step, t) && Flat(s) && (step.Resettled? ==> step.next.retail)
    ensures Flat(t)
    ensures step.Claimed? && step.claim.Some? ==> !step.claim.value.tookPlaying
  {
    match step
    case Claimed(request, claim, started) =>
      var slots := SlotsOf(s.pool.voices, s.playing);
      CutOnlyWhenAllowed(slots, s.pool.cursor, FLAT_PRIORITY, request.wave, 0, claim);
      if claim.Some? {
        assert s.pool.voices[claim.value.slot] in s.pool.voices;
        forall v | v in t.pool.voices ensures v.priority == FLAT_PRIORITY {
          var i :| 0 <= i < |t.pool.voices| && t.pool.voices[i] == v;
          assert s.pool.voices[i] in s.pool.voices;
        }
      }
    case Ended(source) =>
    case Silenced(i) =>
      forall v | v in t.pool.voices ensures v.priority == FLAT_PRIORITY {
        var j :| 0 <= j < |t.pool.voices| && t.pool.voices[j] == v;
        assert s.pool.voices[j] in s.pool.voices;
      }
    case Resettled(next, free) =>
      ShrunkHolds(s.pool.voices, next.VoiceCount());
      GrownHolds(Shrunk(s.pool.voices, next.VoiceCount()).0, free, next.VoiceCount());
  }

  /** A pool that has only ever been retail never cuts a playing sound. */
  lemma {:induction false} RetailNeverCuts(states: seq<State>, steps: seq<Step>, k: nat)
    requires Trace(states, steps) && k < |states| && Flat(states[0])
    requires forall step | step in steps :: step.Resettled? ==> step.next.retail
    ensures Flat(states[k])
    ensures k > 0 && steps[k - 1].Claimed? && steps[k - 1].claim.Some? ==> !steps[k - 1].claim.value.tookPlaying
  {
    if k > 0 {
      RetailNeverCuts(states, steps, k - 1);
      assert steps[k - 1] in steps;
      StepKeepsFlat(states[k - 1], steps[k - 1], states[k]);
    }
  }

  /** A new pool keeps every cap, and a new retail pool is flat. */
  lemma NewPoolStarts(options: Options, free: seq<nat>, playing: set<nat>, voices: seq<Voice>)
    requires Permutation(voices, free) && forall v | v in voices :: v == Vacant(v.source)
    ensures
      var s := State(Pool(voices, options.Normalized(), 0), playing);
      KeepsCap(s) && (options.retail ==> Flat(s))
  {
    PermutationIsOwn(voices, free);
    var slots := SlotsOf(voices, playing);
    forall w | w != 0 ensures Count(slots, w) <= options.Normalized().Cap() {
      NoneHold(slots, w, |slots|);
    }
  }

  lemma {:induction false} NoneHold(slots: seq<Slot>, w: int, n: nat)
    requires n <= |slots| && forall j | 0 <= j < |slots| :: !slots[j].occupied
    ensures CountRange(slots, w, 0, n) == 0
  {
    if n > 0 {
      NoneHold(slots, w, n - 1);
    }
  }
}
