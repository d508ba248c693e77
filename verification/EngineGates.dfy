/** Which sounds may start, and which a world change silences: a sound of the interface
    call is left playing whichever way it was asked for. */
module EngineGates {
  import opened Wrappers
  import opened Voices
  import opened VoicePools

  /** What was asked for: a sound in the world, an ambient one, placed or centred, or one
      of the interface call, as an interface sound or as a cue of the portal tunnel. */
  datatype Sound = World | Ambient | Ui(isInterface: bool)

  datatype Switches = Switches(focusMuted: bool, interfaceEnabled: bool, worldSuspended: bool) {
    /** The gate each kind of sound has to pass. */
    predicate Lets(sound: Sound) {
      match sound
      case World => !worldSuspended && !focusMuted
      case Ambient => !worldSuspended && !focusMuted
      case Ui(isInterface) => !focusMuted && (isInterface ==> interfaceEnabled)
    }
  }

  /** A voice records that it carries an interface sound exactly when the sound it was
      last given is one of the interface call. */
  predicate Carries(v: Voice, kind: Option<Sound>) {
    (v.inUse <==> kind.Some?) && (v.isInterface <==> kind.Some? && kind.value.Ui?)
  }

  ghost predicate AllCarry(voices: seq<Voice>, kinds: seq<Option<Sound>>) {
    |kinds| == |voices| && forall i {:trigger voices[i]} {:trigger kinds[i]} | 0 <= i < |voices| :: Carries(voices[i], kinds[i])
  }

  /** The mixer's end as the engine sees it: whether it is there, whether that it is not
      was noticed, and the slots that count as playing. */
  datatype Mixer = Mixer(gone: bool, noticed: bool, playing: set<nat>) {
    predicate Valid() {
      noticed ==> gone && playing == {}
    }

    /** A send to a mixer that has gone fails and is noticed; then nothing plays. */
    function Started(source: nat): Mixer {
      if noticed then this else if gone then Mixer(true, true, {}) else this.(playing := playing + {source})
    }

    function Stopped(sources: set<nat>): Mixer {
      if noticed || sources == {} then this
      else if gone then Mixer(true, true, {})
      else this.(playing := playing - sources)
    }
  }

  // ---- A world change ------------------------------------------------------------------

  predicate Silenced(v: Voice) {
    !v.isInterface
  }

  /** The voices once the first `n` of those to be silenced are vacated. */
  function Quiet(voices: seq<Voice>, n: nat): (r: seq<Voice>)
    ensures |r| == |voices|
  {
    seq(|voices|, i requires 0 <= i < |voices| =>
      if i < n && Silenced(voices[i]) then Vacant(voices[i].source) else voices[i])
  }

  /** The voices once the first `n` in use are vacated. */
  function Emptied(voices: seq<Voice>, n: nat): (r: seq<Voice>)
    ensures |r| == |voices|
  {
    seq(|voices|, i requires 0 <= i < |voices| => if i < n && voices[i].inUse then Vacant(voices[i].source) else voices[i])
  }

  function QuietKinds(voices: seq<Voice>, kinds: seq<Option<Sound>>): (r: seq<Option<Sound>>)
    requires |kinds| == |voices|
    ensures |r| == |voices|
  {
    seq(|voices|, i requires 0 <= i < |voices| => if Silenced(voices[i]) then None else kinds[i])
  }

  /** The mixer slots of the first `n` voices to be silenced. */
  function SourcesOff(voices: seq<Voice>, n: nat): set<nat> {
    set i | 0 <= i < |voices| && i < n && Silenced(voices[i]) :: voices[i].source
  }

  lemma OneMoreOff(voices: seq<Voice>, n: nat)
    requires n < |voices|
    ensures SourcesOff(voices, n + 1) == SourcesOff(voices, n) + if Silenced(voices[n]) then {voices[n].source} else {}
  {
  }

  lemma OwnSourceStays(voices: seq<Voice>, i: nat)
    requires OwnSources(voices) && i < |voices|
    ensures voices[i].source in SourcesOff(voices, |voices|) <==> Silenced(voices[i])
  {
    if voices[i].source in SourcesOff(voices, |voices|) {
      var j :| 0 <= j < |voices| && Silenced(voices[j]) && voices[j].source == voices[i].source;
      SameSource(voices, i, j);
    }
  }

  lemma SameSource(voices: seq<Voice>, i: nat, j: nat)
    requires OwnSources(voices) && i < |voices| && j < |voices| && voices[i].source == voices[j].source
    ensures i == j
  {
  }

  /** The voice goes on with what it was given. */
  predicate GoesOn(voices: seq<Voice>, playing: set<nat>, i: nat)
    requires i < |voices|
  {
    Quiet(voices, |voices|)[i] == voices[i] && voices[i].source in playing - SourcesOff(voices, |voices|)
  }

  /** Of the voices sounding at a world change those go on that carry a sound of the
      interface call, an interface sound or not. */
  lemma GoesOnIffUi(voices: seq<Voice>, kinds: seq<Option<Sound>>, playing: set<nat>, i: nat)
    requires AllCarry(voices, kinds) && OwnSources(voices)
    requires i < |voices| && voices[i].inUse && voices[i].source in playing
    ensures GoesOn(voices, playing, i) <==> kinds[i].value.Ui?
  {
    OwnSourceStays(voices, i);
    assert Carries(voices[i], kinds[i]);
  }

  /** What is written of a world change: it leaves interface sounds playing and no other. */
  ghost predicate SparesInterfaceOnly(voices: seq<Voice>, kinds: seq<Option<Sound>>, playing: set<nat>)
    requires |kinds| == |voices|
  {
    forall i {:trigger kinds[i]} | 0 <= i < |voices| && voices[i].inUse && voices[i].source in playing ::
      GoesOn(voices, playing, i) <==> kinds[i] == Some(Ui(true))
  }

  /** That is so exactly when no cue of the portal tunnel is sounding. */
  lemma SparesInterfaceOnlyIffNoCue(voices: seq<Voice>, kinds: seq<Option<Sound>>, playing: set<nat>)
    requires AllCarry(voices, kinds) && OwnSources(voices)
    ensures SparesInterfaceOnly(voices, kinds, playing) <==>
      forall i {:trigger kinds[i]} | 0 <= i < |voices| && voices[i].inUse && voices[i].source in playing ::
        kinds[i] != Some(Ui(false))
  {
    forall i | 0 <= i < |voices| && voices[i].inUse && voices[i].source in playing
      ensures (GoesOn(voices, playing, i) <==> kinds[i] == Some(Ui(true))) <==> kinds[i] != Some(Ui(false))
    {
      GoesOnIffUi(voices, kinds, playing, i);
      assert Carries(voices[i], kinds[i]);
    }
  }

  lemma ForgetAll(voices: seq<Voice>, kinds: seq<Option<Sound>>)
    requires AllCarry(voices, kinds)
    ensures AllCarry(Emptied(voices, |voices|), seq(|voices|, _ => None))
  {
    forall i | 0 <= i < |voices| ensures Carries(Emptied(voices, |voices|)[i], None) {
      assert Carries(voices[i], kinds[i]);
    }
  }

  lemma VacatedKeepsSources(voices: seq<Voice>, n: nat, free: seq<nat>)
    requires Permutation(voices, free)
    ensures Permutation(Quiet(voices, n), free)
  {
    assert Sources(Quiet(voices, n)) == Sources(voices);
  }

  lemma HasSource(voices: seq<Voice>, free: seq<nat>, i: nat)
    requires Permutation(voices, free) && i < |voices|
    ensures voices[i].source != 0
  {
    var all := Sources(voices) + free;
    assert all[i] == voices[i].source;
    assert all[i] in multiset(all);
    assert multiset(all)[0] == 0;
  }

  // ---- The engine ----------------------------------------------------------------------

  class GatedEngine {
    const engine: Engine
    var switches: Switches
    var mixer: Mixer
    /** What each voice was last given. */
    ghost var kinds: seq<Option<Sound>>

    ghost predicate Valid()
      reads this, engine, engine.pool
    {
      engine.Valid() && mixer.Valid() && AllCarry(engine.pool.voices, kinds)
    }

    /** Nothing but its gate keeps a sound from being given a voice. */
    ghost predicate MayPlay(audible: bool, playable: bool, pool: Pool, mixer: Mixer) {
      audible && playable && !mixer.noticed && HasRoom(pool, mixer.playing)
    }

    constructor (options: Options)
      ensures Valid() && fresh(engine) && fresh(engine.pool) && mixer == Mixer(false, false, {})
      ensures switches == Switches(false, true, false) && forall v | v in engine.pool.voices :: !v.inUse
    {
      engine := new Engine(options);
      switches, mixer := Switches(false, true, false), Mixer(false, false, {});
      new;
      kinds := seq(|engine.pool.voices|, _ => None);
    }

    /** Gives a sound that passed its gate to a voice, if there is one for it. With the
        mixer gone and not yet noticed the voice is claimed and the sound does not start. */
    method PlayMixed(audible: bool, playable: bool, owner: int, sound: Sound, wave: int, priority: real, now: int)
      returns (started: bool, ghost slot: Option<nat>)
      requires Valid()
      modifies this`mixer, this`kinds, engine.pool
      ensures Valid() && Given(old(engine.pool.voices), old(mixer), old(kinds), sound, slot) && started == (slot.Some? && !old(mixer).gone)
      ensures slot.Some? ==> audible && playable && !old(mixer).noticed
      ensures MayPlay(audible, playable, old(engine.pool.State()), old(mixer)) ==> slot.Some?
    {
      started, slot := false, None;
      if !audible || !playable || mixer.noticed {
        return;
      }
      var request := Request(owner, sound.Ui?, priority, wave, now);
      var claim := engine.pool.MakeClaim(mixer.playing, request);
      ClaimKeepsPermutation(old(engine.pool.State()), engine.free, request, claim);
      if HasRoom(old(engine.pool.State()), mixer.playing) {
        RoomIsFound(old(engine.pool.State()), mixer.playing, request, claim);
      }
      if claim.None? {
        return;
      }
      slot := Some(claim.value.slot);
      kinds := kinds[claim.value.slot := Some(sound)];
      HasSource(engine.pool.voices, engine.free, claim.value.slot);
      mixer := mixer.Started(engine.pool.voices[claim.value.slot].source);
      started := !mixer.noticed;
    }

    /** What giving a sound to a voice changes: that voice, what is known of it, and the
        mixer's slot; with no voice, nothing. */
    ghost predicate Given(voices: seq<Voice>, was: Mixer, before: seq<Option<Sound>>, sound: Sound, slot: Option<nat>)
      reads this, engine, engine.pool
    {
      match slot
      case None => engine.pool.voices == voices && mixer == was && kinds == before
      case Some(i) =>
        && i < |voices| == |before| && i < |engine.pool.voices|
        && engine.pool.voices == voices[i := engine.pool.voices[i]]
        && engine.pool.voices[i].inUse && engine.pool.voices[i].source == voices[i].source
        && engine.pool.voices[i].isInterface == sound.Ui?
        && kinds == before[i := Some(sound)] && mixer == was.Started(voices[i].source)
    }

    /** A centred sound with no falloff. */
    method PlayUiWave(audible: bool, playable: bool, wave: int, priority: real, now: int, isInterfaceSound: bool)
      returns (started: bool, ghost slot: Option<nat>)
      requires Valid()
      modifies this`mixer, this`kinds, engine.pool
      ensures Valid() && Given(old(engine.pool.voices), old(mixer), old(kinds), Ui(isInterfaceSound), slot)
      ensures started == (slot.Some? && !old(mixer).gone)
      ensures slot.Some? ==> switches.Lets(Ui(isInterfaceSound)) && audible && playable && !old(mixer).noticed
      ensures switches.Lets(Ui(isInterfaceSound)) && MayPlay(audible, playable, old(engine.pool.State()), old(mixer)) ==> slot.Some?
    {
      started, slot := false, None;
      if switches.focusMuted || (isInterfaceSound && !switches.interfaceEnabled) {
        return;
      }
      started, slot := PlayMixed(audible, playable, 0, Ui(isInterfaceSound), wave, priority, now);
    }

    /** A sound from a place in the world. */
    method Play3dWave(audible: bool, playable: bool, owner: int, wave: int, priority: real, now: int)
      returns (started: bool, ghost slot: Option<nat>)
      requires Valid()
      modifies this`mixer, this`kinds, engine.pool
      ensures Valid() && Given(old(engine.pool.voices), old(mixer), old(kinds), World, slot)
      ensures started == (slot.Some? && !old(mixer).gone)
      ensures slot.Some? ==> switches.Lets(World) && audible && playable && !old(mixer).noticed
      ensures switches.Lets(World) && MayPlay(audible, playable, old(engine.pool.State()), old(mixer)) ==> slot.Some?
    {
      started, slot := false, None;
      if switches.worldSuspended || switches.focusMuted {
        return;
      }
      started, slot := PlayMixed(audible, playable, owner, World, wave, priority, now);
    }

    /** An ambient sound, from a position or a centred bed. */
    method PlayAmbient(audible: bool, playable: bool, wave: int, priority: real, now: int)
      returns (started: bool, ghost slot: Option<nat>)
      requires Valid()
      modifies this`mixer, this`kinds, engine.pool
      ensures Valid() && Given(old(engine.pool.voices), old(mixer), old(kinds), Ambient, slot)
      ensures started == (slot.Some? && !old(mixer).gone)
      ensures slot.Some? ==> switches.Lets(Ambient) && audible && playable && !old(mixer).noticed
      ensures switches.Lets(Ambient) && MayPlay(audible, playable, old(engine.pool.State()), old(mixer)) ==> slot.Some?
    {
      started, slot := false, None;
      if switches.worldSuspended || switches.focusMuted {
        return;
      }
      started, slot := PlayMixed(audible, playable, 0, Ambient, wave, priority, now);
    }

    /** World voices go quiet, and no world sound starts until they are let again. */
    method SuspendWorldAudio()
      requires Valid()
      modifies this`switches, this`mixer, this`kinds, engine.pool
      ensures Valid() && switches == old(switches).(worldSuspended := true)
      ensures engine.pool.voices == Quiet(old(engine.pool.voices), |old(engine.pool.voices)|)
      ensures mixer == old(mixer).Stopped(SourcesOff(old(engine.pool.voices), |old(engine.pool.voices)|))
      ensures kinds == QuietKinds(old(engine.pool.voices), old(kinds))
    {
      switches := switches.(worldSuspended := true);
      ghost var was, before := engine.pool.voices, mixer;
      for i := 0 to |engine.pool.voices|
        invariant |engine.pool.voices| == |was| && engine.pool.voices == Quiet(was, i)
        invariant kinds == old(kinds) && switches == old(switches).(worldSuspended := true)
        invariant mixer == before.Stopped(SourcesOff(was, i)) && mixer.Valid()
        invariant engine.pool.options == old(engine.pool.options) && engine.pool.cursor == old(engine.pool.cursor)
      {
        OneMoreOff(was, i);
        if !engine.pool.voices[i].isInterface {
          Silence(i);
        }
      }
      VacatedKeepsSources(was, |was|, engine.free);
      kinds := QuietKinds(was, kinds);
    }

    /** Out of focus no sound starts, and those that play are cut. */
    method SetFocusMuted(muted: bool)
      requires Valid()
      modifies this`switches, this`mixer, this`kinds, engine.pool
      ensures Valid() && switches == old(switches).(focusMuted := muted)
      ensures muted && !old(switches).focusMuted ==> forall v | v in engine.pool.voices :: !v.inUse
      ensures !(muted && !old(switches).focusMuted) ==>
                engine.pool.voices == old(engine.pool.voices) && mixer == old(mixer) && kinds == old(kinds)
    {
      if muted && !switches.focusMuted {
        ghost var was := engine.pool.voices;
        for i := 0 to |engine.pool.voices|
          invariant |engine.pool.voices| == |was| && engine.pool.voices == Emptied(was, i)
          invariant kinds == old(kinds) && switches == old(switches) && mixer.Valid()
          invariant engine.pool.options == old(engine.pool.options) && engine.pool.cursor == old(engine.pool.cursor)
        {
          if engine.pool.voices[i].inUse {
            Silence(i);
          }
        }
        assert Sources(engine.pool.voices) == Sources(was);
        ForgetAll(was, kinds);
        kinds := seq(|was|, _ => None);
      }
      switches := switches.(focusMuted := muted);
    }

    method Silence(i: nat)
      requires i < |engine.pool.voices| && mixer.Valid()
      modifies this`mixer, engine.pool`voices
      ensures mixer == old(mixer).Stopped({old(engine.pool.voices)[i].source}) && mixer.Valid()
      ensures engine.pool.voices == old(engine.pool.voices)[i := Vacant(old(engine.pool.voices)[i].source)]
    {
      var source := engine.pool.voices[i].source;
      mixer := mixer.Stopped({source});
      engine.pool.voices := engine.pool.voices[i := Vacant(source)];
    }

    /** A sound ends by itself. */
    method SoundEnds(source: nat)
      requires Valid()
      modifies this`mixer
      ensures Valid() && mixer == old(mixer).(playing := old(mixer).playing - {source})
    {
      mixer := mixer.(playing := mixer.playing - {source});
    }

    /** The mixer goes away, which nobody is told. */
    method MixerGoes()
      requires Valid()
      modifies this`mixer
      ensures Valid() && mixer == old(mixer).(gone := true)
    {
      mixer := mixer.(gone := true);
    }

    method SetInterfaceEnabled(on: bool)
      requires Valid()
      modifies this`switches
      ensures Valid() && switches == old(switches).(interfaceEnabled := on)
    {
      switches := switches.(interfaceEnabled := on);
    }

    method ResumeWorldAudio()
      requires Valid()
      modifies this`switches
      ensures Valid() && switches == old(switches).(worldSuspended := false)
    {
      switches := switches.(worldSuspended := false);
    }

    /** A sound of the interface call and then a world change: it sounds after it exactly
        if the gate let it start, whichever way it was asked for. */
    method PlayThenChange(audible: bool, playable: bool, wave: int, priority: real, now: int, isInterfaceSound: bool)
      returns (started: bool, ghost slot: Option<nat>)
      requires Valid()
      modifies this`switches, this`mixer, this`kinds, engine.pool
      ensures Valid() && switches == old(switches).(worldSuspended := true)
      ensures started ==> slot.Some? && slot.value < |engine.pool.voices|
      ensures started ==> kinds[slot.value] == Some(Ui(isInterfaceSound)) && engine.pool.voices[slot.value].inUse
      ensures started ==> engine.pool.voices[slot.value].source in mixer.playing
      ensures started ==> old(switches).Lets(Ui(isInterfaceSound))
      ensures MayPlay(audible, playable, old(engine.pool.State()), old(mixer)) && !old(mixer).gone ==>
                (started <==> old(switches).Lets(Ui(isInterfaceSound)))
    {
      started, slot := PlayUiWave(audible, playable, wave, priority, now, isInterfaceSound);
      if started {
        PermutationIsOwn(engine.pool.voices, engine.free);
        GoesOnIffUi(engine.pool.voices, kinds, mixer.playing, slot.value);
      }
      SuspendWorldAudio();
    }
  }

  /** A voice is free, or has finished. */
  ghost predicate HasRoom(pool: Pool, playing: set<nat>) {
    exists i :: 0 <= i < |pool.voices| && !SlotsOf(pool.voices, playing)[i].Busy()
  }

  lemma RoomIsFound(pool: Pool, playing: set<nat>, request: Request, r: Option<Claim>)
    requires pool.Valid() && HasRoom(pool, playing) && pool.ClaimAnswers(playing, request, r)
    ensures r.Some?
  {
    RetailDecides(SlotsOf(pool.voices, playing), pool.cursor, pool.options.Recorded(request.authored));
  }

  /** A portal cue in a new engine sounds on after a world change, though it is no
      interface sound. */
  method CueSoundsOn(options: Options, wave: int) returns (e: GatedEngine, ghost slot: Option<nat>)
    ensures fresh(e) && e.Valid() && e.switches.worldSuspended
    ensures slot.Some? && slot.value < |e.kinds| && e.kinds[slot.value] == Some(Ui(false))
    ensures e.engine.pool.voices[slot.value].source in e.mixer.playing
  {
    e := new GatedEngine(options);
    assert e.engine.pool.Valid() && |e.engine.pool.voices| > 0;
    assert e.engine.pool.voices[0] in e.engine.pool.voices;
    assert !SlotsOf(e.engine.pool.voices, e.mixer.playing)[0].Busy();
    var started: bool;
    started, slot := e.PlayThenChange(true, true, wave, 1.0, 0, false);
  }
}
