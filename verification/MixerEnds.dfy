/** The two ends as they run: the engine's link and the mixer's render loop do
    what the protocol's steps say. */
module MixerEnds {
  import opened Wrappers
  import opened MixerProtocol

  /** The channel and the finished generations both ends hold. */
  class Channel {
    var queue: seq<Command>
    const finished: array<nat>
    var alive: bool

    ghost predicate Valid()
      reads this, finished
    {
      finished.Length == SLOTS && View().Valid()
    }

    ghost function View(): Shared
      reads this, finished
    {
      Shared(queue, finished[..], alive)
    }

    constructor ()
      ensures Valid() && fresh(finished) && View() == Start().shared
    {
      queue, alive := [], true;
      finished := new nat[SLOTS](_ => 0);
      new;
      assert finished[..] == seq(SLOTS, _ => 0);
    }

    /** False once the receiving end is gone. */
    method Push(c: Command) returns (taken: bool)
      requires Valid() && (c.SetGain? || c.slot < SLOTS)
      modifies this`queue
      ensures Valid() && taken == alive
      ensures View() == if alive then old(View()).(queue := old(queue) + [c]) else old(View())
    {
      if alive {
        queue := queue + [c];
      }
      taken := alive;
    }
  }

  class MixerLink {
    const channel: Channel
    const generation: array<nat>
    var next: nat
    var disconnected: bool

    ghost predicate Valid()
      reads this, generation, channel, channel.finished
    {
      channel.Valid() && generation.Length == SLOTS && generation != channel.finished
    }

    ghost function View(): Link
      reads this, generation
    {
      Link(generation[..], next, disconnected)
    }

    constructor (channel: Channel)
      requires channel.Valid()
      ensures Valid() && fresh(generation) && this.channel == channel && View() == Start().link
    {
      this.channel := channel;
      generation := new nat[SLOTS](_ => 0);
      next, disconnected := 0, false;
      new;
      assert generation[..] == seq(SLOTS, _ => 0);
    }

    method SendOn(c: Command) returns (sent: bool)
      requires Valid() && (c.SetGain? || c.slot < SLOTS)
      modifies this`disconnected, channel`queue
      ensures Valid() && sent == !disconnected
      ensures (View(), channel.View()) == Send(old(View()), old(channel.View()), c)
    {
      if disconnected {
        return false;
      }
      var taken := channel.Push(c);
      if !taken {
        disconnected := true;
      }
      sent := !disconnected;
    }

    /** Start a sound in a slot; false when the mixer is gone. */
    method StartPlaying(slot: nat, frames: nat) returns (sent: bool)
      requires Valid() && slot < SLOTS
      modifies this, generation, channel`queue
      ensures Valid() && sent == !disconnected
      ensures (View(), channel.View()) == PlayOn(old(View()), old(channel.View()), slot, frames)
    {
      next := next + 1;
      generation[slot] := next;
      sent := SendOn(Play(slot, next, frames));
    }

    method Silence(slot: nat)
      requires Valid() && slot < SLOTS
      modifies this, generation, channel`queue
      ensures Valid() && (View(), channel.View()) == StopOn(old(View()), old(channel.View()), slot)
    {
      generation[slot] := 0;
      var sent := SendOn(Stop(slot));
    }

    /** A sound counts as playing from the moment it is sent. */
    method StillPlaying(slot: nat) returns (r: bool)
      requires Valid() && slot < SLOTS
      ensures r == IsPlaying(View(), channel.View(), slot)
    {
      var g := generation[slot];
      r := g != 0 && !disconnected && channel.finished[slot] != g;
    }
  }

  // ---- Rendering ------------------------------------------------------------------

  function AppliedAll(mix: Mix, queue: seq<Command>): (r: Mix)
    requires mix.Valid() && forall c | c in queue :: c.SetGain? || c.slot < SLOTS
    ensures r.Valid()
    decreases |queue|
  {
    if queue == [] then mix
    else
      assert queue[0] in queue;
      AppliedAll(Applied(mix, queue[0]), queue[1..])
  }

  function MixedFrom(mix: Mix, shared: Shared, slot: nat, frames: nat): (r: (Mix, Shared))
    requires mix.Valid() && shared.Valid() && slot <= SLOTS
    ensures r.0.Valid() && r.1.Valid()
    decreases SLOTS - slot
  {
    if slot == SLOTS then (mix, shared)
    else
      var (m, s) := MixedSlot(mix, shared, slot, frames);
      MixedFrom(m, s, slot + 1, frames)
  }

  function Rendered(mix: Mix, shared: Shared, frames: nat): (Mix, Shared)
    requires mix.Valid() && shared.Valid()
  {
    MixedFrom(AppliedAll(mix, shared.queue), shared.(queue := []), 0, frames)
  }

  class Mixer {
    const channel: Channel
    const voices: array<Option<Sounding>>
    var started: nat
    var cut: nat
    var ended: nat

    ghost predicate Valid()
      reads this, voices, channel, channel.finished
    {
      channel.Valid() && voices.Length == SLOTS
    }

    ghost function View(): Mix
      reads this, voices
    {
      Mix(voices[..], started, cut, ended)
    }

    constructor (channel: Channel)
      requires channel.Valid()
      ensures Valid() && fresh(voices) && this.channel == channel && View() == Start().mix
    {
      this.channel := channel;
      voices := new Option<Sounding>[SLOTS](_ => None);
      started, cut, ended := 0, 0, 0;
      new;
      assert voices[..] == seq(SLOTS, _ => None);
    }

    method Apply(c: Command)
      requires Valid() && (c.SetGain? || c.slot < SLOTS)
      modifies this, voices
      ensures Valid() && View() == Applied(old(View()), c)
    {
      match c
      case Play(slot, generation, frames) =>
        if voices[slot].Some? {
          cut := cut + 1;
        }
        voices[slot] := Some(Sounding(generation, frames));
        started := started + 1;
      case Stop(slot) =>
        if voices[slot].Some? {
          cut := cut + 1;
        }
        voices[slot] := None;
      case SetGain =>
    }

    /** Everything sent so far. */
    method ApplyCommands()
      requires Valid()
      modifies this, voices, channel`queue
      ensures Valid() && View() == AppliedAll(old(View()), old(channel.queue))
      ensures channel.View() == old(channel.View()).(queue := [])
    {
      while channel.queue != []
        invariant Valid() && channel.finished[..] == old(channel.finished[..]) && channel.alive == old(channel.alive)
        invariant AppliedAll(View(), channel.queue) == AppliedAll(old(View()), old(channel.queue))
        decreases |channel.queue|
      {
        var c := channel.queue[0];
        assert c in channel.queue;
        channel.queue := channel.queue[1..];
        Apply(c);
      }
    }

    method MixVoice(slot: nat, frames: nat)
      requires Valid() && slot < SLOTS
      modifies this, voices, channel.finished
      ensures Valid() && (View(), channel.View()) == MixedSlot(old(View()), old(channel.View()), slot, frames)
    {
      if voices[slot].None? {
        return;
      }
      var v := voices[slot].value;
      if v.left <= frames {
        voices[slot] := None;
        channel.finished[slot] := v.generation;
        ended := ended + 1;
      } else {
        voices[slot] := Some(Sounding(v.generation, v.left - frames));
      }
    }

    /** Take the pending commands, then mix every slot. */
    method Render(frames: nat)
      requires Valid()
      modifies this, voices, channel`queue, channel.finished
      ensures Valid() && (View(), channel.View()) == Rendered(old(View()), old(channel.View()), frames)
    {
      ApplyCommands();
      for slot := 0 to SLOTS
        invariant Valid()
        invariant MixedFrom(View(), channel.View(), slot, frames) == Rendered(old(View()), old(channel.View()), frames)
      {
        MixVoice(slot, frames);
      }
    }
  }

  // ---- A render is a run of the protocol's steps ----------------------------------------

  function Takes(n: nat): seq<Action> {
    seq(n, _ => Take)
  }

  function MixesFrom(slot: nat, frames: nat): seq<Action>
    requires slot <= SLOTS
    decreases SLOTS - slot
  {
    if slot == SLOTS then [] else [MixSlot(slot, frames)] + MixesFrom(slot + 1, frames)
  }

  lemma {:induction false} TakesApplyAll(s: State)
    requires s.Valid() && s.shared.alive
    ensures Runs(s, Takes(|s.shared.queue|))
    ensures After(s, Takes(|s.shared.queue|))
      == State(s.link, s.shared.(queue := []), AppliedAll(s.mix, s.shared.queue))
    decreases |s.shared.queue|
  {
    var n := |s.shared.queue|;
    if n > 0 {
      assert s.shared.queue[0] in s.shared.queue;
      TakesApplyAll(Step(s, Take));
      assert Takes(n)[1..] == Takes(n - 1) && Takes(n)[0] == Take;
    } else {
      assert Takes(0) == [];
    }
  }

  lemma {:induction false} MixesMixAll(s: State, slot: nat, frames: nat)
    requires s.Valid() && s.shared.alive && slot <= SLOTS
    ensures Runs(s, MixesFrom(slot, frames))
    ensures
      var (mix, shared) := MixedFrom(s.mix, s.shared, slot, frames);
      After(s, MixesFrom(slot, frames)) == State(s.link, shared, mix)
    decreases SLOTS - slot
  {
    if slot < SLOTS {
      var run := MixesFrom(slot, frames);
      assert run[0] == MixSlot(slot, frames) && run[1..] == MixesFrom(slot + 1, frames);
      MixesMixAll(Step(s, MixSlot(slot, frames)), slot + 1, frames);
    }
  }

  /** Rendering is taking every command, then mixing the slots one after another,
      so all that holds of every run holds between and after renders. */
  lemma RenderIsRun(s: State, frames: nat)
    requires s.Valid() && s.shared.alive
    ensures Runs(s, Takes(|s.shared.queue|))
    ensures
      var taken := After(s, Takes(|s.shared.queue|));
      var (mix, shared) := Rendered(s.mix, s.shared, frames);
      Runs(taken, MixesFrom(0, frames)) && After(taken, MixesFrom(0, frames)) == State(s.link, shared, mix)
  {
    TakesApplyAll(s);
    MixesMixAll(After(s, Takes(|s.shared.queue|)), 0, frames);
  }
}
