/** Which voice a new sound is given: one ring of voices, a cap per wave, and
    what that keeps over every run of claims. */
module Voices {
  import opened Wrappers

  /** What one voice holds when a sound asks for a place. */
  datatype Slot = Slot(occupied: bool, stillPlaying: bool, priority: real, wave: int, startedAt: int) {
    predicate Busy() {
      occupied && stillPlaying
    }

    predicate Holds(w: int) {
      Busy() && wave == w
    }
  }

  datatype Claim = Claim(slot: nat, tookPlaying: bool)

  function Ring(cursor: nat, offset: nat, n: nat): nat
    requires n > 0
  {
    (cursor + offset) % n
  }

  /** The first slot from `offset` on round the ring that `wanted` holds of. */
  function FirstFree(slots: seq<Slot>, cursor: nat, offset: nat): (r: Option<nat>)
    requires slots != [] && offset <= |slots|
    ensures r.Some? ==> r.value < |slots| && !slots[r.value].Busy()
    decreases |slots| - offset
  {
    if offset == |slots| then None
    else
      var i := Ring(cursor, offset, |slots|);
      if !slots[i].Busy() then Some(i) else FirstFree(slots, cursor, offset + 1)
  }

  function FirstBelow(slots: seq<Slot>, cursor: nat, priority: real, offset: nat): (r: Option<nat>)
    requires slots != [] && offset <= |slots|
    ensures r.Some? ==> r.value < |slots| && slots[r.value].priority < priority
    decreases |slots| - offset
  {
    if offset == |slots| then None
    else
      var i := Ring(cursor, offset, |slots|);
      if slots[i].priority < priority then Some(i) else FirstBelow(slots, cursor, priority, offset + 1)
  }

  /** The game's two passes: a free or finished voice, else a less important one. */
  function AcquireRetail(slots: seq<Slot>, cursor: nat, priority: real): (r: Option<nat>)
    ensures r.Some? ==> r.value < |slots|
  {
    if slots == [] then None
    else
      match FirstFree(slots, cursor, 0)
      case Some(i) => Some(i)
      case None => FirstBelow(slots, cursor, priority, 0)
  }

  /** How many of a range of voices a wave is sounding on. */
  function CountRange(slots: seq<Slot>, w: int, from: nat, to: nat): nat
    requires from <= to <= |slots|
  {
    if from == to then 0 else CountRange(slots, w, from, to - 1) + if slots[to - 1].Holds(w) then 1 else 0
  }

  /** How many voices a wave is sounding on. */
  function Count(slots: seq<Slot>, w: int): nat {
    CountRange(slots, w, 0, |slots|)
  }

  /** The count round the ring, the first `n` slots from the cursor. */
  function RingCount(slots: seq<Slot>, cursor: nat, w: int, n: nat): nat
    requires slots != [] && n <= |slots|
  {
    if n == 0 then 0
    else RingCount(slots, cursor, w, n - 1) + if slots[Ring(cursor, n - 1, |slots|)].Holds(w) then 1 else 0
  }

  predicate IsOldest(slots: seq<Slot>, w: int, i: nat) {
    i < |slots| && slots[i].Holds(w) && forall j | 0 <= j < |slots| && slots[j].Holds(w) :: slots[i].startedAt <= slots[j].startedAt
  }

  // ---- Going round the ring -------------------------------------------------------

  /** The ring visits every slot. */
  lemma RingReaches(cursor: nat, n: nat, i: nat) returns (offset: nat)
    requires cursor < n && i < n
    ensures offset < n && Ring(cursor, offset, n) == i
  {
    offset := if i >= cursor then i - cursor else i + n - cursor;
    RingIs(cursor, offset, n);
  }

  lemma RingIs(cursor: nat, offset: nat, n: nat)
    requires cursor < n && offset < n
    ensures Ring(cursor, offset, n) == if cursor + offset < n then cursor + offset else cursor + offset - n
  {
    if cursor + offset >= n {
      assert cursor + offset == n + (cursor + offset - n);
    }
  }

  lemma {:induction false} RangesAdd(slots: seq<Slot>, w: int, a: nat, b: nat, c: nat)
    requires a <= b <= c <= |slots|
    ensures CountRange(slots, w, a, c) == CountRange(slots, w, a, b) + CountRange(slots, w, b, c)
    decreases c - b
  {
    if b < c {
      RangesAdd(slots, w, a, b, c - 1);
    }
  }

  lemma {:induction false} RingCountIs(slots: seq<Slot>, cursor: nat, w: int, n: nat)
    requires cursor < |slots| && n <= |slots|
    ensures
      var room := |slots| - cursor;
      RingCount(slots, cursor, w, n) ==
        if n <= room then CountRange(slots, w, cursor, cursor + n)
        else CountRange(slots, w, cursor, |slots|) + CountRange(slots, w, 0, n - room)
  {
    if n > 0 {
      RingCountIs(slots, cursor, w, n - 1);
      RingIs(cursor, n - 1, |slots|);
    }
  }

  /** Counted round the ring or along the pool, it is the same count. */
  lemma RingCountsAll(slots: seq<Slot>, cursor: nat, w: int)
    requires cursor < |slots|
    ensures RingCount(slots, cursor, w, |slots|) == Count(slots, w)
  {
    RingCountIs(slots, cursor, w, |slots|);
    RangesAdd(slots, w, 0, cursor, |slots|);
  }

  lemma {:induction false} FirstFreeFinds(slots: seq<Slot>, cursor: nat, offset: nat)
    requires slots != [] && offset <= |slots|
    ensures FirstFree(slots, cursor, offset).None? ==>
      forall k | offset <= k < |slots| :: slots[Ring(cursor, k, |slots|)].Busy()
    decreases |slots| - offset
  {
    if offset < |slots| {
      FirstFreeFinds(slots, cursor, offset + 1);
    }
  }

  lemma {:induction false} FirstBelowFinds(slots: seq<Slot>, cursor: nat, priority: real, offset: nat)
    requires slots != [] && offset <= |slots|
    ensures FirstBelow(slots, cursor, priority, offset).None? ==>
      forall k | offset <= k < |slots| :: slots[Ring(cursor, k, |slots|)].priority >= priority
    decreases |slots| - offset
  {
    if offset < |slots| {
      FirstBelowFinds(slots, cursor, priority, offset + 1);
    }
  }

  /** A sound is dropped exactly when no voice is free and none is less important. */
  lemma RetailDecides(slots: seq<Slot>, cursor: nat, priority: real)
    requires cursor < |slots|
    ensures AcquireRetail(slots, cursor, priority).None? <==>
      forall i | 0 <= i < |slots| :: slots[i].Busy() && slots[i].priority >= priority
    ensures AcquireRetail(slots, cursor, priority).Some? && slots[AcquireRetail(slots, cursor, priority).value].Busy() ==>
      && (forall i | 0 <= i < |slots| :: slots[i].Busy())
      && slots[AcquireRetail(slots, cursor, priority).value].priority < priority
  {
    FirstBelowFinds(slots, cursor, priority, 0);
    if FirstFree(slots, cursor, 0).None? {
      NoneFree(slots, cursor);
      if FirstBelow(slots, cursor, priority, 0).None? {
        forall i | 0 <= i < |slots| ensures slots[i].priority >= priority {
          var k := RingReaches(cursor, |slots|, i);
        }
      }
    }
  }

  /** How far round the ring from the cursor a slot is. */
  function StepsTo(cursor: nat, i: nat, n: nat): nat
    requires cursor < n
  {
    if i >= cursor then i - cursor else i + n - cursor
  }

  /** `i` is the slot that far round the ring, and the only one. */
  lemma SlotAt(cursor: nat, offset: nat, n: nat) returns (i: nat)
    requires cursor < n && offset < n
    ensures i == Ring(cursor, offset, n) && i < n && forall j | 0 <= j < n :: StepsTo(cursor, j, n) == offset <==> j == i
  {
    RingIs(cursor, offset, n);
    i := Ring(cursor, offset, n);
  }

  lemma {:induction false} NearestFree(slots: seq<Slot>, cursor: nat, offset: nat)
    requires cursor < |slots| && offset <= |slots| && FirstFree(slots, cursor, offset).Some?
    ensures
      var k := StepsTo(cursor, FirstFree(slots, cursor, offset).value, |slots|);
      offset <= k && forall j | 0 <= j < |slots| && offset <= StepsTo(cursor, j, |slots|) < k :: slots[j].Busy()
    decreases |slots| - offset
  {
    var i := SlotAt(cursor, offset, |slots|);
    if slots[i].Busy() {
      NearestFree(slots, cursor, offset + 1);
    }
  }

  lemma {:induction false} NearestBelow(slots: seq<Slot>, cursor: nat, priority: real, offset: nat)
    requires cursor < |slots| && offset <= |slots| && FirstBelow(slots, cursor, priority, offset).Some?
    ensures
      var k := StepsTo(cursor, FirstBelow(slots, cursor, priority, offset).value, |slots|);
      offset <= k && forall j | 0 <= j < |slots| && offset <= StepsTo(cursor, j, |slots|) < k :: slots[j].priority >= priority
    decreases |slots| - offset
  {
    var i := SlotAt(cursor, offset, |slots|);
    if slots[i].priority >= priority {
      NearestBelow(slots, cursor, priority, offset + 1);
    }
  }

  lemma NoneFree(slots: seq<Slot>, cursor: nat)
    requires cursor < |slots| && FirstFree(slots, cursor, 0).None?
    ensures forall i | 0 <= i < |slots| :: slots[i].Busy()
  {
    FirstFreeFinds(slots, cursor, 0);
    forall i | 0 <= i < |slots| ensures slots[i].Busy() {
      var k := RingReaches(cursor, |slots|, i);
    }
  }

  /** Round the ring from the cursor, none before the one taken would have done: all of
      them are busy or, when no voice is free, none has a lower priority. */
  lemma RetailTakesNearest(slots: seq<Slot>, cursor: nat, priority: real, j: nat)
    requires cursor < |slots| && AcquireRetail(slots, cursor, priority).Some? && j < |slots|
    requires StepsTo(cursor, j, |slots|) < StepsTo(cursor, AcquireRetail(slots, cursor, priority).value, |slots|)
    ensures slots[j].Busy()
    ensures slots[AcquireRetail(slots, cursor, priority).value].Busy() ==> slots[j].priority >= priority
  {
    if FirstFree(slots, cursor, 0).Some? {
      NearestFree(slots, cursor, 0);
    } else {
      NoneFree(slots, cursor);
      NearestBelow(slots, cursor, priority, 0);
    }
  }

  // ---- Claiming ------------------------------------------------------------------------

  /** When a wave holds its whole allowance, the copy of it playing longest. */
  method OldestOfOneWave(slots: seq<Slot>, cursor: nat, w: int, cap: int) returns (r: Option<nat>)
    requires cursor < |slots|
    ensures r.Some? <==> cap > 0 && w != 0 && Count(slots, w) >= cap
    ensures r.Some? ==> IsOldest(slots, w, r.value) && FirstOfThem(slots, cursor, w, r.value)
  {
    if cap <= 0 || w == 0 {
      return None;
    }
    var n := |slots|;
    var holding := 0;
    var oldest: Option<nat> := None;
    for offset := 0 to n
      invariant holding == RingCount(slots, cursor, w, offset)
      invariant OldestSoFar(slots, cursor, w, offset, oldest) && (oldest.None? <==> holding == 0)
    {
      var i := (cursor + offset) % n;
      OldestStep(slots, cursor, w, offset, oldest);
      if slots[i].Holds(w) {
        holding := holding + 1;
        if oldest.None? || slots[i].startedAt < slots[oldest.value].startedAt {
          oldest := Some(i);
        }
      }
    }
    RingCountsAll(slots, cursor, w);
    if holding < cap {
      return None;
    }
    OldestOfAll(slots, cursor, w, oldest);
    r := oldest;
  }

  /** The copy playing longest among the first `n` slots from the cursor, and the first
      of those. */
  predicate OldestSoFar(slots: seq<Slot>, cursor: nat, w: int, n: nat, oldest: Option<nat>)
    requires cursor < |slots|
  {
    && (oldest.Some? ==>
          oldest.value < |slots| && slots[oldest.value].Holds(w) && StepsTo(cursor, oldest.value, |slots|) < n)
    && forall j | 0 <= j < |slots| && slots[j].Holds(w) && StepsTo(cursor, j, |slots|) < n ::
         oldest.Some? && NotBefore(slots, cursor, j, oldest.value)
  }

  /** `j` began later than `i`, or then too and is further round the ring. */
  predicate NotBefore(slots: seq<Slot>, cursor: nat, j: nat, i: nat)
    requires cursor < |slots| && i < |slots| && j < |slots|
  {
    || slots[i].startedAt < slots[j].startedAt
    || (slots[i].startedAt == slots[j].startedAt && StepsTo(cursor, i, |slots|) <= StepsTo(cursor, j, |slots|))
  }

  /** Of copies that began together the first round the ring. */
  predicate FirstOfThem(slots: seq<Slot>, cursor: nat, w: int, i: nat)
    requires cursor < |slots| && i < |slots|
  {
    forall j | 0 <= j < |slots| && slots[j].Holds(w) && slots[j].startedAt == slots[i].startedAt ::
      StepsTo(cursor, i, |slots|) <= StepsTo(cursor, j, |slots|)
  }

  /** One slot further, whether or not it sounds the wave and is older. */
  lemma OldestStep(slots: seq<Slot>, cursor: nat, w: int, offset: nat, oldest: Option<nat>)
    requires cursor < |slots| && offset < |slots| && OldestSoFar(slots, cursor, w, offset, oldest)
    ensures
      var i := Ring(cursor, offset, |slots|);
      OldestSoFar(slots, cursor, w, offset + 1,
                  if slots[i].Holds(w) && (oldest.None? || slots[i].startedAt < slots[oldest.value].startedAt) then Some(i)
                  else oldest)
  {
    var i := SlotAt(cursor, offset, |slots|);
  }

  lemma OldestOfAll(slots: seq<Slot>, cursor: nat, w: int, oldest: Option<nat>)
    requires cursor < |slots| && OldestSoFar(slots, cursor, w, |slots|, oldest) && oldest.Some?
    ensures IsOldest(slots, w, oldest.value) && FirstOfThem(slots, cursor, w, oldest.value)
  {
    forall j | 0 <= j < |slots| && slots[j].Holds(w) ensures NotBefore(slots, cursor, j, oldest.value) {
      assert StepsTo(cursor, j, |slots|) < |slots|;
    }
  }

  /** What a claim may answer. */
  ghost predicate Answers(slots: seq<Slot>, cursor: nat, priority: real, w: int, cap: int, r: Option<Claim>) {
    if cap > 0 && w != 0 && Count(slots, w) >= cap then
      && r.Some? && r.value.tookPlaying && IsOldest(slots, w, r.value.slot)
      && (cursor < |slots| ==> FirstOfThem(slots, cursor, w, r.value.slot))
    else
      match AcquireRetail(slots, cursor, priority)
      case None => r == None
      case Some(i) => r == Some(Claim(i, slots[i].Busy()))
  }

  method Acquire(slots: seq<Slot>, cursor: nat, priority: real, w: int, cap: int) returns (r: Option<Claim>)
    requires slots != [] ==> cursor < |slots|
    ensures slots == [] ==> r == None
    ensures slots != [] ==> Answers(slots, cursor, priority, w, cap, r)
  {
    if slots == [] {
      return None;
    }
    var oldest := OldestOfOneWave(slots, cursor, w, cap);
    if oldest.Some? {
      return Some(Claim(oldest.value, true));
    }
    var found := AcquireRetail(slots, cursor, priority);
    if found.None? {
      return None;
    }
    r := Some(Claim(found.value, slots[found.value].Busy()));
  }

  /** A playing voice is cut only as the oldest copy of a wave at its cap, or
      when no voice is free or finished and it is strictly less important. */
  lemma CutOnlyWhenAllowed(slots: seq<Slot>, cursor: nat, priority: real, w: int, cap: int, r: Option<Claim>)
    requires cursor < |slots| && Answers(slots, cursor, priority, w, cap, r)
    ensures r.Some? ==> r.value.slot < |slots| && (r.value.tookPlaying <==> slots[r.value.slot].Busy())
    ensures r.Some? && r.value.tookPlaying ==>
      || (cap > 0 && w != 0 && Count(slots, w) >= cap && IsOldest(slots, w, r.value.slot))
      || ((forall i | 0 <= i < |slots| :: slots[i].Busy()) && slots[r.value.slot].priority < priority)
  {
    RetailDecides(slots, cursor, priority);
  }

  // ---- What a claim leaves --------------------------------------------------------------

  function Given(slots: seq<Slot>, i: nat, priority: real, w: int, now: int): seq<Slot>
    requires i < |slots|
  {
    slots[i := Slot(true, true, priority, w, now)]
  }

  lemma {:induction false} CountAfter(slots: seq<Slot>, i: nat, s: Slot, w: int, n: nat)
    requires i < |slots| && n <= |slots|
    ensures CountRange(slots[i := s], w, 0, n) ==
      CountRange(slots, w, 0, n) + if i < n then (if s.Holds(w) then 1 else 0) - (if slots[i].Holds(w) then 1 else 0) else 0
  {
    if n > 0 {
      CountAfter(slots, i, s, w, n - 1);
    }
  }

  ghost predicate WithinCap(slots: seq<Slot>, cap: int) {
    forall w | w != 0 :: Count(slots, w) <= cap
  }

  /** No claim takes a wave past its cap. */
  lemma ClaimKeepsCap(slots: seq<Slot>, cursor: nat, priority: real, w: int, cap: int, r: Option<Claim>, now: int)
    requires cursor < |slots| && cap > 0 && WithinCap(slots, cap) && Answers(slots, cursor, priority, w, cap, r)
    ensures r.Some? ==> r.value.slot < |slots| && WithinCap(Given(slots, r.value.slot, priority, w, now), cap)
  {
    if r.Some? {
      var i, s := r.value.slot, Slot(true, true, priority, w, now);
      forall v | v != 0 ensures Count(Given(slots, i, priority, w, now), v) <= cap {
        CountAfter(slots, i, s, v, |slots|);
        assert Count(slots, v) <= cap;
        assert w != 0 && Count(slots, w) >= cap ==> slots[i].Holds(w);
      }
    }
  }
}
