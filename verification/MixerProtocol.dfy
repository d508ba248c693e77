/** The engine's end and the mixer's end of the sound device: a queue of commands
    one way, the last finished generation of each slot the other way. Their steps
    interleave freely. */
module MixerProtocol {
  import opened Wrappers

  const SLOTS := 64

  datatype Command =
    | Play(slot: nat, generation: nat, frames: nat)
    | Stop(slot: nat)
    | SetGain

  /** A voice with so many output frames left. */
  datatype Sounding = Sounding(generation: nat, left: nat)

  /** What the engine's end keeps: the generation it last gave each slot, 0 once
      silenced. */
  datatype Link = Link(generation: seq<nat>, next: nat, disconnected: bool) {
    predicate Valid() {
      |generation| == SLOTS
    }
  }

  /** What both ends see; the receiving end may go away. */
  datatype Shared = Shared(queue: seq<Command>, finished: seq<nat>, alive: bool) {
    predicate Valid() {
      |finished| == SLOTS && (forall c | c in queue :: c.SetGain? || c.slot < SLOTS) && (!alive ==> queue == [])
    }
  }

  datatype Mix = Mix(voices: seq<Option<Sounding>>, started: nat, cut: nat, ended: nat) {
    predicate Valid() {
      |voices| == SLOTS
    }
  }

  datatype State = State(link: Link, shared: Shared, mix: Mix) {
    predicate Valid() {
      link.Valid() && shared.Valid() && mix.Valid()
    }
  }

  function Start(): State {
    State(Link(seq(SLOTS, _ => 0), 0, false), Shared([], seq(SLOTS, _ => 0), true), Mix(seq(SLOTS, _ => None), 0, 0, 0))
  }

  // ---- The engine's end -----------------------------------------------------------

  /** A send fails, and is found out to fail, once the mixer has gone. */
  function Send(link: Link, shared: Shared, c: Command): (Link, Shared) {
    if link.disconnected then (link, shared)
    else if !shared.alive then (link.(disconnected := true), shared)
    else (link, shared.(queue := shared.queue + [c]))
  }

  function PlayOn(link: Link, shared: Shared, slot: nat, frames: nat): (Link, Shared)
    requires link.Valid() && slot < SLOTS
  {
    var g := link.next + 1;
    Send(Link(link.generation[slot := g], g, link.disconnected), shared, Play(slot, g, frames))
  }

  function StopOn(link: Link, shared: Shared, slot: nat): (Link, Shared)
    requires link.Valid() && slot < SLOTS
  {
    Send(link.(generation := link.generation[slot := 0]), shared, Stop(slot))
  }

  predicate IsPlaying(link: Link, shared: Shared, slot: nat)
    requires link.Valid() && shared.Valid() && slot < SLOTS
  {
    link.generation[slot] != 0 && !link.disconnected && shared.finished[slot] != link.generation[slot]
  }

  // ---- The mixer's end ----------------------------------------------------------------

  function Applied(mix: Mix, c: Command): Mix
    requires mix.Valid() && (c.SetGain? || c.slot < SLOTS)
  {
    match c
    case Play(slot, g, frames) =>
      Mix(mix.voices[slot := Some(Sounding(g, frames))], mix.started + 1,
          mix.cut + (if mix.voices[slot].Some? then 1 else 0), mix.ended)
    case Stop(slot) =>
      Mix(mix.voices[slot := None], mix.started, mix.cut + (if mix.voices[slot].Some? then 1 else 0), mix.ended)
    case SetGain => mix
  }

  /** One slot mixed for so many frames: it sounds on, or ends and says so. */
  function MixedSlot(mix: Mix, shared: Shared, slot: nat, frames: nat): (Mix, Shared)
    requires mix.Valid() && shared.Valid() && slot < SLOTS
  {
    match mix.voices[slot]
    case None => (mix, shared)
    case Some(v) =>
      if v.left <= frames then
        (Mix(mix.voices[slot := None], mix.started, mix.cut, mix.ended + 1),
         shared.(finished := shared.finished[slot := v.generation]))
      else (mix.(voices := mix.voices[slot := Some(Sounding(v.generation, v.left - frames))]), shared)
  }

  // ---- Interleaved steps -----------------------------------------------------------------

  datatype Action =
    | SendPlay(slot: nat, frames: nat)
    | SendStop(slot: nat)
    | SendGain
    | Take                              // the mixer takes one command
    | MixSlot(slot: nat, frames: nat)
    | GoAway                            // the mixer's thread ends

  predicate Enabled(s: State, a: Action) {
    match a
    case SendPlay(slot, _) => slot < SLOTS
    case SendStop(slot) => slot < SLOTS
    case SendGain => true
    case Take => s.shared.queue != [] && s.shared.alive
    case MixSlot(slot, _) => slot < SLOTS && s.shared.alive
    case GoAway => s.shared.alive
  }

  function Step(s: State, a: Action): (t: State)
    requires s.Valid() && Enabled(s, a)
    ensures t.Valid()
  {
    match a
    case SendPlay(slot, frames) =>
      var (link, shared) := PlayOn(s.link, s.shared, slot, frames);
      State(link, shared, s.mix)
    case SendStop(slot) =>
      var (link, shared) := StopOn(s.link, s.shared, slot);
      State(link, shared, s.mix)
    case SendGain =>
      var (link, shared) := Send(s.link, s.shared, SetGain);
      State(link, shared, s.mix)
    case Take =>
      assert s.shared.queue[0] in s.shared.queue;
      State(s.link, s.shared.(queue := s.shared.queue[1..]), Applied(s.mix, s.shared.queue[0]))
    case MixSlot(slot, frames) =>
      var (mix, shared) := MixedSlot(s.mix, s.shared, slot, frames);
      State(s.link, shared, mix)
    case GoAway => s.(shared := s.shared.(queue := [], alive := false))
  }

  predicate Runs(s: State, run: seq<Action>)
    requires s.Valid()
    decreases |run|
  {
    run != [] ==> Enabled(s, run[0]) && Runs(Step(s, run[0]), run[1..])
  }

  function After(s: State, run: seq<Action>): (t: State)
    requires s.Valid() && Runs(s, run)
    ensures t.Valid()
    decreases |run|
  {
    if run == [] then s else After(Step(s, run[0]), run[1..])
  }

  // ---- What a slot's story must be ---------------------------------------------------------

  predicate Names(c: Command, slot: nat) {
    !c.SetGain? && c.slot == slot
  }

  predicate Mentions(q: seq<Command>, slot: nat)
    decreases |q|
  {
    q != [] && (Names(q[0], slot) || Mentions(q[1..], slot))
  }

  /** The generation that sounds once the queue is taken, `now` sounding before. */
  function Last(q: seq<Command>, slot: nat, now: Option<nat>): Option<nat>
    decreases |q|
  {
    if q == [] then now
    else if !Names(q[0], slot) then Last(q[1..], slot, now)
    else Last(q[1..], slot, if q[0].Play? then Some(q[0].generation) else None)
  }

  /** The generations queued for a slot rise from above `low` to at most `high`. */
  predicate Rising(q: seq<Command>, slot: nat, low: nat, high: nat)
    decreases |q|
  {
    if q == [] then true
    else if Names(q[0], slot) && q[0].Play? then
      low < q[0].generation <= high && Rising(q[1..], slot, q[0].generation, high)
    else Rising(q[1..], slot, low, high)
  }

  function Sounds(mix: Mix, slot: nat): Option<nat>
    requires mix.Valid() && slot < SLOTS
  {
    if mix.voices[slot].Some? then Some(mix.voices[slot].value.generation) else None
  }

  function Floor(s: State, slot: nat): nat
    requires s.Valid() && slot < SLOTS
  {
    match Sounds(s.mix, slot)
    case Some(g) => g
    case None => s.shared.finished[slot]
  }

  predicate Fits(s: State, slot: nat)
    requires s.Valid() && slot < SLOTS
  {
    var g, q, now := s.link.generation[slot], s.shared.queue, Sounds(s.mix, slot);
    && g <= s.link.next && s.shared.finished[slot] <= s.link.next
    && (now.Some? ==> s.shared.finished[slot] < now.value <= s.link.next)
    && Rising(q, slot, Floor(s, slot), s.link.next)
    && (if g == 0 then Last(q, slot, now) == None
        else Last(q, slot, now) == Some(g)
             || (now.None? && !Mentions(q, slot) && s.shared.finished[slot] == g))
  }

  lemma {:induction false} LastSettles(q: seq<Command>, slot: nat, a: Option<nat>, b: Option<nat>)
    ensures if Mentions(q, slot) then Last(q, slot, a) == Last(q, slot, b) else Last(q, slot, a) == a
    decreases |q|
  {
    if q != [] {
      LastSettles(q[1..], slot, a, b);
    }
  }

  lemma {:induction false} LastAppends(q: seq<Command>, slot: nat, now: Option<nat>, c: Command)
    ensures Last(q + [c], slot, now) ==
      if !Names(c, slot) then Last(q, slot, now) else if c.Play? then Some(c.generation) else None
    decreases |q|
  {
    if q == [] {
      assert [] + [c] == [c] && [c][1..] == [];
    } else {
      assert (q + [c])[1..] == q[1..] + [c];
      LastAppends(q[1..], slot, if !Names(q[0], slot) then now else if q[0].Play? then Some(q[0].generation) else None, c);
    }
  }

  lemma {:induction false} RisingAppends(q: seq<Command>, slot: nat, low: nat, high: nat, c: Command, top: nat)
    requires Rising(q, slot, low, high) && low <= high <= top
    requires Names(c, slot) && c.Play? ==> high < c.generation <= top
    ensures Rising(q + [c], slot, low, top)
    decreases |q|
  {
    if q == [] {
      assert [] + [c] == [c] && [c][1..] == [];
    } else {
      assert (q + [c])[1..] == q[1..] + [c];
      RisingAppends(q[1..], slot, if Names(q[0], slot) && q[0].Play? then q[0].generation else low, high, c, top);
    }
  }

  lemma {:induction false} RisingWidens(q: seq<Command>, slot: nat, low: nat, high: nat, lower: nat, higher: nat)
    requires Rising(q, slot, low, high) && lower <= low && high <= higher
    ensures Rising(q, slot, lower, higher)
    decreases |q|
  {
    if q != [] {
      if Names(q[0], slot) && q[0].Play? {
        RisingWidens(q[1..], slot, q[0].generation, high, q[0].generation, higher);
      } else {
        RisingWidens(q[1..], slot, low, high, lower, higher);
      }
    }
  }

  // ---- Every step keeps every slot's story -------------------------------------------------

  lemma {:induction false} MentionsAppends(q: seq<Command>, slot: nat, c: Command)
    ensures Mentions(q + [c], slot) <==> Mentions(q, slot) || Names(c, slot)
    decreases |q|
  {
    if q == [] {
      assert [] + [c] == [c] && [c][1..] == [];
    } else {
      assert (q + [c])[1..] == q[1..] + [c];
      MentionsAppends(q[1..], slot, c);
    }
  }

  lemma SendFits(s: State, a: Action, slot: nat)
    requires s.Valid() && slot < SLOTS && Enabled(s, a) && (a.SendPlay? || a.SendStop? || a.SendGain?)
    requires Fits(s, slot) && s.shared.alive && !s.link.disconnected
    ensures Fits(Step(s, a), slot)
  {
    var q := s.shared.queue;
    var c := if a.SendPlay? then Play(a.slot, s.link.next + 1, a.frames) else if a.SendStop? then Stop(a.slot) else SetGain;
    var now := Sounds(s.mix, slot);
    LastAppends(q, slot, now, c);
    MentionsAppends(q, slot, c);
    RisingAppends(q, slot, Floor(s, slot), s.link.next, c, if a.SendPlay? then s.link.next + 1 else s.link.next);
  }

  lemma TakeFits(s: State, slot: nat)
    requires s.Valid() && slot < SLOTS && Enabled(s, Take) && Fits(s, slot)
    ensures Fits(Step(s, Take), slot)
  {
    var q, c := s.shared.queue, s.shared.queue[0];
    assert c in q;
    if c.Stop? && c.slot == slot {
      RisingWidens(q[1..], slot, Floor(s, slot), s.link.next, s.shared.finished[slot], s.link.next);
    }
  }

  lemma MixSlotFits(s: State, i: nat, frames: nat, slot: nat)
    requires s.Valid() && slot < SLOTS && Enabled(s, MixSlot(i, frames)) && Fits(s, slot)
    ensures Fits(Step(s, MixSlot(i, frames)), slot)
  {
    LastSettles(s.shared.queue, slot, Sounds(s.mix, slot), None);
  }

  ghost predicate AllFit(s: State)
    requires s.Valid()
  {
    forall slot: nat {:trigger Fits(s, slot)} | slot < SLOTS :: Fits(s, slot)
  }

  predicate Connected(s: State) {
    s.shared.alive && !s.link.disconnected
  }

  /** A link that has not noticed a mixer leave has not seen one leave. */
  predicate Noticed(s: State) {
    s.link.disconnected ==> !s.shared.alive
  }

  lemma StepFits(s: State, a: Action)
    requires s.Valid() && Enabled(s, a) && Noticed(s) && (s.shared.alive ==> AllFit(s))
    ensures Noticed(Step(s, a)) && (Step(s, a).shared.alive ==> AllFit(Step(s, a)))
  {
    var t := Step(s, a);
    if t.shared.alive {
      forall slot: nat | slot < SLOTS ensures Fits(t, slot) {
        assert Fits(s, slot);
        match a
        case SendPlay(_, _) => SendFits(s, a, slot);
        case SendStop(_) => SendFits(s, a, slot);
        case SendGain => SendFits(s, a, slot);
        case Take => TakeFits(s, slot);
        case MixSlot(i, frames) => MixSlotFits(s, i, frames, slot);
        case GoAway =>
      }
    }
  }

  lemma {:induction false} EveryRunFits(s: State, run: seq<Action>)
    requires s.Valid() && Runs(s, run) && Noticed(s) && (s.shared.alive ==> AllFit(s))
    ensures Noticed(After(s, run)) && (After(s, run).shared.alive ==> AllFit(After(s, run)))
    decreases |run|
  {
    if run != [] {
      StepFits(s, run[0]);
      EveryRunFits(Step(s, run[0]), run[1..]);
    }
  }

  /** A slot's generation is queued to play. */
  predicate Queued(q: seq<Command>, slot: nat, g: nat) {
    exists i :: 0 <= i < |q| && q[i].Play? && q[i].slot == slot && q[i].generation == g
  }

  lemma {:induction false} LastIsQueued(q: seq<Command>, slot: nat, now: Option<nat>, g: nat)
    requires Last(q, slot, now) == Some(g)
    ensures now == Some(g) || Queued(q, slot, g)
    decreases |q|
  {
    if q != [] {
      var later := if !Names(q[0], slot) then now else if q[0].Play? then Some(q[0].generation) else None;
      LastIsQueued(q[1..], slot, later, g);
      if Queued(q[1..], slot, g) {
        var i :| 0 <= i < |q[1..]| && q[1..][i].Play? && q[1..][i].slot == slot && q[1..][i].generation == g;
        assert q[i + 1] == q[1..][i];
      } else if later != now {
        assert q[0].Play? && q[0].slot == slot && q[0].generation == g;
      }
    }
  }

  lemma {:induction false} UnmentionedIsUnqueued(q: seq<Command>, slot: nat, g: nat)
    requires !Mentions(q, slot)
    ensures !Queued(q, slot, g)
    decreases |q|
  {
    if q != [] {
      UnmentionedIsUnqueued(q[1..], slot, g);
      forall i | 0 <= i < |q| ensures !(q[i].Play? && q[i].slot == slot && q[i].generation == g) {
        if i > 0 {
          assert q[i] == q[1..][i - 1];
        }
      }
    }
  }

  /** However sends and mixing interleave, while connected a slot is playing
      exactly when the sound last started there is still queued or is the one
      sounding. */
  lemma PlayingIsQueuedOrSounding(run: seq<Action>, slot: nat)
    requires Runs(Start(), run) && slot < SLOTS && Connected(After(Start(), run))
    ensures
      var s := After(Start(), run);
      var g := s.link.generation[slot];
      IsPlaying(s.link, s.shared, slot) <==> g != 0 && (Queued(s.shared.queue, slot, g) || Sounds(s.mix, slot) == Some(g))
  {
    var s := After(Start(), run);
    EveryRunFits(Start(), run);
    assert Fits(s, slot);
    var g, q, now := s.link.generation[slot], s.shared.queue, Sounds(s.mix, slot);
    if g != 0 {
      if Last(q, slot, now) == Some(g) {
        LastIsQueued(q, slot, now, g);
        LastIsAbove(q, slot, now, Floor(s, slot), s.link.next);
      } else {
        UnmentionedIsUnqueued(q, slot, g);
      }
    }
  }

  lemma {:induction false} LastIsAbove(q: seq<Command>, slot: nat, now: Option<nat>, low: nat, high: nat)
    requires Rising(q, slot, low, high) && (now.Some? ==> now.value >= low)
    ensures Last(q, slot, now).Some? ==> Last(q, slot, now).value > low || Last(q, slot, now) == now
    decreases |q|
  {
    if q != [] {
      if !Names(q[0], slot) {
        LastIsAbove(q[1..], slot, now, low, high);
      } else if q[0].Play? {
        LastIsAbove(q[1..], slot, Some(q[0].generation), q[0].generation, high);
      } else {
        LastIsAbove(q[1..], slot, None, low, high);
      }
    }
  }

  // ---- The counters -----------------------------------------------------------------------

  function Active(voices: seq<Option<Sounding>>): nat {
    if voices == [] then 0 else Active(voices[..|voices| - 1]) + if voices[|voices| - 1].Some? then 1 else 0
  }

  lemma {:induction false} ActiveAfter(voices: seq<Option<Sounding>>, i: nat, v: Option<Sounding>)
    requires i < |voices|
    ensures Active(voices[i := v]) == Active(voices) + (if v.Some? then 1 else 0) - (if voices[i].Some? then 1 else 0)
  {
    var n := |voices| - 1;
    var after := voices[i := v];
    if i < n {
      ActiveAfter(voices[..n], i, v);
      assert after[..n] == voices[..n][i := v];
    } else {
      assert after[..n] == voices[..n];
    }
  }

  predicate Balanced(mix: Mix) {
    mix.started == mix.cut + mix.ended + Active(mix.voices)
  }

  lemma StepBalances(s: State, a: Action)
    requires s.Valid() && Enabled(s, a) && Balanced(s.mix)
    ensures Balanced(Step(s, a).mix)
  {
    if a.Take? {
      var c := s.shared.queue[0];
      assert c in s.shared.queue;
      if c.Play? {
        ActiveAfter(s.mix.voices, c.slot, Some(Sounding(c.generation, c.frames)));
      } else if c.Stop? {
        ActiveAfter(s.mix.voices, c.slot, None);
      }
    } else if a.MixSlot? && s.mix.voices[a.slot].Some? {
      var v := s.mix.voices[a.slot].value;
      ActiveAfter(s.mix.voices, a.slot, if v.left <= a.frames then None else Some(Sounding(v.generation, v.left - a.frames)));
    }
  }

  /** Every sound started has been cut, has ended or is sounding, always. */
  lemma {:induction false} EveryRunBalances(s: State, run: seq<Action>)
    requires s.Valid() && Runs(s, run) && Balanced(s.mix)
    ensures Balanced(After(s, run).mix)
    decreases |run|
  {
    if run != [] {
      StepBalances(s, run[0]);
      EveryRunBalances(Step(s, run[0]), run[1..]);
    }
  }

  // ---- How long a sound is heard ---------------------------------------------------------

  function Total(frames: seq<nat>): nat {
    if frames == [] then 0 else frames[0] + Total(frames[1..])
  }

  /** One slot mixed again and again. */
  function MixedOn(mix: Mix, shared: Shared, slot: nat, frames: seq<nat>): (Mix, Shared)
    requires mix.Valid() && shared.Valid() && slot < SLOTS
    decreases |frames|
  {
    if frames == [] then (mix, shared)
    else
      var (next, seen) := MixedSlot(mix, shared, slot, frames[0]);
      MixedOn(next, seen, slot, frames[1..])
  }

  /** Left alone, a sound is heard for exactly its frames, however they are mixed: until
      then it sounds with the rest of them left, and with the mixing that reaches its end
      it is over, counted once and told to the engine. */
  lemma {:induction false} SoundsItsLength(mix: Mix, shared: Shared, slot: nat, frames: seq<nat>)
    requires mix.Valid() && shared.Valid() && slot < SLOTS && mix.voices[slot].Some? && frames != []
    ensures
      var v := mix.voices[slot].value;
      var (after, told) := MixedOn(mix, shared, slot, frames);
      if Total(frames) < v.left then
        after == mix.(voices := mix.voices[slot := Some(Sounding(v.generation, v.left - Total(frames)))]) && told == shared
      else
        && after == mix.(voices := mix.voices[slot := None], ended := mix.ended + 1)
        && told == shared.(finished := shared.finished[slot := v.generation])
    decreases |frames|
  {
    var v := mix.voices[slot].value;
    var (next, seen) := MixedSlot(mix, shared, slot, frames[0]);
    if v.left <= frames[0] {
      SilentStays(next, seen, slot, frames[1..]);
    } else if frames[1..] != [] {
      SoundsItsLength(next, seen, slot, frames[1..]);
    } else {
      assert Total(frames) == frames[0];
    }
  }

  lemma {:induction false} SilentStays(mix: Mix, shared: Shared, slot: nat, frames: seq<nat>)
    requires mix.Valid() && shared.Valid() && slot < SLOTS && mix.voices[slot].None?
    ensures MixedOn(mix, shared, slot, frames) == (mix, shared)
    decreases |frames|
  {
    if frames != [] {
      SilentStays(mix, shared, slot, frames[1..]);
    }
  }
}
