/** The ambient sounds and their deadlines: what a tick fires, in what order, and
    what every operation keeps. Times are reals, and intervals are not negative. */
module Ambient {
  import opened Wrappers

  /** A tracked sound: whether it holds a deadline, and whether it can be heard. */
  datatype Instance = Instance(key: int, onQueue: bool, audible: bool)

  /** Deadlines are numbered as they are made. */
  datatype Deadline = Deadline(at: real, seqNo: nat, instance: nat)

  /** Earlier time first, and of equal times the older deadline. */
  predicate Before(a: Deadline, b: Deadline) {
    a.at < b.at || (a.at == b.at && a.seqNo < b.seqNo)
  }

  predicate Due(d: Deadline, now: real) {
    d.at < now
  }

  /** An instance is on the queue exactly when one deadline names it. */
  ghost predicate Fits(instances: seq<Instance>, queue: set<Deadline>, made: nat) {
    && (forall d | d in queue :: d.instance < |instances| && d.seqNo <= made)
    && (forall d, e | d in queue && e in queue && d != e :: d.instance != e.instance && d.seqNo != e.seqNo)
    && (forall i {:trigger instances[i]} | 0 <= i < |instances| :: instances[i].onQueue <==> Named(queue, i))
  }

  predicate Named(queue: set<Deadline>, i: nat) {
    exists d :: d in queue && d.instance == i
  }

  predicate Ordered(s: seq<Deadline>) {
    forall i, j | 0 <= i < j < |s| :: Before(s[i], s[j])
  }

  /** The due deadlines of a queue. */
  function DueOf(queue: set<Deadline>, now: real): set<Deadline> {
    set d | d in queue && Due(d, now)
  }

  lemma {:induction false} FirstExists(queue: set<Deadline>)
    requires queue != {} && forall d, e | d in queue && e in queue && d != e :: d.seqNo != e.seqNo
    ensures exists first :: first in queue && forall d | d in queue && d != first :: Before(first, d)
    decreases |queue|
  {
    var d :| d in queue;
    if queue == {d} {
      assert forall e | e in queue :: e == d;
    } else {
      var rest := queue - {d};
      assert rest != {};
      FirstExists(rest);
      var f :| f in rest && forall e | e in rest && e != f :: Before(f, e);
      FirstOfBoth(queue, d, f);
    }
  }

  lemma BeforeIsTotal(a: Deadline, b: Deadline)
    requires a.seqNo != b.seqNo
    ensures Before(a, b) || Before(b, a)
  {
  }

  lemma BeforeChains(a: Deadline, b: Deadline, c: Deadline)
    requires Before(a, b) && Before(b, c)
    ensures Before(a, c)
  {
  }

  lemma FirstOfBoth(queue: set<Deadline>, d: Deadline, f: Deadline)
    requires d in queue && f in queue && d.seqNo != f.seqNo
    requires forall e | e in queue && e != d && e != f :: Before(f, e)
    ensures exists first :: first in queue && forall e | e in queue && e != first :: Before(first, e)
  {
    var first := if Before(d, f) then d else f;
    BeforeIsTotal(d, f);
    forall e | e in queue && e != first ensures Before(first, e) {
      if first == d && e != f {
        BeforeChains(d, f, e);
      }
    }
  }

  /** A new deadline names it. */
  ghost predicate NamedAnew(queue: set<Deadline>, was: set<Deadline>, i: nat) {
    exists d :: d in queue && d !in was && d.instance == i
  }

  /** Which instances of a run of deadlines can be heard, in order. */
  function Heard(instances: seq<Instance>, s: seq<Deadline>): seq<nat> {
    if s == [] then []
    else
      var last := s[|s| - 1];
      Heard(instances, s[..|s| - 1])
      + if last.instance < |instances| && instances[last.instance].audible then [last.instance] else []
  }

  class Scheduler {
    var instances: seq<Instance>
    var queue: set<Deadline>
    var made: nat
    /** How long the sound started as the n-th waits for its next time. */
    const interval: nat -> real

    ghost predicate Valid()
      reads this
    {
      Fits(instances, queue, made) && forall n :: interval(n) >= 0.0
    }

    constructor (interval: nat -> real)
      requires forall n :: interval(n) >= 0.0
      ensures Valid() && instances == [] && queue == {}
    {
      this.interval := interval;
      instances, queue, made := [], {}, 0;
    }

    /** The instance for a sound, made when first seen. */
    method Track(key: int) returns (i: nat)
      requires Valid()
      modifies this
      ensures Valid() && queue == old(queue)
      ensures i < |instances| && instances[i].key == key && old(instances) <= instances
      ensures |instances| <= |old(instances)| + 1
      ensures (exists j :: 0 <= j < |old(instances)| && old(instances)[j].key == key) ==> instances == old(instances)
    {
      i := 0;
      while i < |instances|
        invariant i <= |instances| && forall j | 0 <= j < i :: instances[j].key != key
      {
        if instances[i].key == key {
          return;
        }
        i := i + 1;
      }
      instances := instances + [Instance(key, false, false)];
    }

    method Clear()
      requires Valid()
      modifies this
      ensures Valid() && instances == [] && queue == {}
    {
      instances, queue := [], {};
    }

    /** Queue an instance's next deadline. */
    method Fire(i: nat, now: real)
      requires Valid() && i < |instances| && !instances[i].onQueue
      modifies this
      ensures Valid() && made == old(made) + 1
      ensures queue == old(queue) + {Deadline(now + interval(made), made, i)}
      ensures instances == old(instances)[i := old(instances)[i].(onQueue := true)]
    {
      assert !Named(queue, i);
      made := made + 1;
      var d := Deadline(now + interval(made), made, i);
      queue := queue + {d};
      instances := instances[i := instances[i].(onQueue := true)];
      FiredFits(old(instances), old(queue), old(made), i, d);
    }

    /** After a rebuild every sound that can be heard is on the queue; those that
        were not fire now. */
    method EndRebuild(audible: seq<bool>, now: real) returns (fired: seq<nat>)
      requires Valid() && |audible| == |instances|
      modifies this
      ensures Valid() && |instances| == |audible|
      ensures forall i | 0 <= i < |audible| ::
                instances[i] == Instance(old(instances)[i].key, old(instances)[i].onQueue || audible[i], audible[i])
      ensures old(queue) <= queue && forall d | d in queue && d !in old(queue) ::
                d.instance in fired && d.at == now + interval(d.seqNo)
      ensures forall i | 0 <= i < |audible| :: i in fired <==> audible[i] && !old(instances)[i].onQueue
      ensures forall i | i in fired :: i < |audible| && NamedAnew(queue, old(queue), i)
      ensures Rising(fired)
    {
      var n := |instances|;
      var was := instances;
      instances := seq(n, i requires 0 <= i < n => was[i].(audible := audible[i]));
      fired := [];
      ghost var first := queue;
      for i := 0 to n
        invariant Valid() && |instances| == n
        invariant forall j | 0 <= j < n :: instances[j] ==
                    Instance(old(instances)[j].key, old(instances)[j].onQueue || (j < i && audible[j]), audible[j])
        invariant old(queue) <= queue && forall d | d in queue && d !in old(queue) ::
                    d.instance in fired && d.at == now + interval(d.seqNo)
        invariant forall j | 0 <= j < n :: j in fired <==> j < i && audible[j] && !old(instances)[j].onQueue
        invariant forall j | j in fired :: j < i && NamedAnew(queue, old(queue), j)
        invariant Rising(fired)
      {
        if !instances[i].onQueue && instances[i].audible {
          ghost var before := queue;
          assert !Named(before, i);
          Fire(i, now);
          FiredStay(first, before, queue, fired, Deadline(now + interval(made), made, i));
          RisingMore(fired, i);
          fired := fired + [i];
        }
      }
    }

    method First() returns (d: Deadline)
      requires Valid() && queue != {}
      ensures d in queue && forall e | e in queue && e != d :: Before(d, e)
    {
      FirstExists(queue);
      d :| d in queue && forall e | e in queue && e != d :: Before(d, e);
    }

    /** Take the first deadline; its instance leaves the queue. */
    method Pop() returns (d: Deadline)
      requires Valid() && queue != {}
      modifies this
      ensures Valid() && made == old(made)
      ensures d in old(queue) && (forall e | e in old(queue) && e != d :: Before(d, e))
      ensures queue == old(queue) - {d}
      ensures d.instance < |old(instances)|
      ensures instances == old(instances)[d.instance := old(instances)[d.instance].(onQueue := false)]
    {
      d := First();
      assert Named(queue, d.instance);
      PoppedFits(instances, queue, made, d);
      queue := queue - {d};
      instances := instances[d.instance := instances[d.instance].(onQueue := false)];
    }

    /** Take the first deadline, which has passed: its sound fires and is queued
        again if it can be heard. */
    method TakeDue(now: real) returns (d: Deadline, heard: bool)
      requires Valid() && queue != {}
      requires exists first :: first in queue && Due(first, now)
      modifies this
      ensures Valid() && SameSounds(old(instances), instances) && made >= old(made)
      ensures d in old(queue) && Due(d, now) && forall e | e in old(queue) && e != d :: Before(d, e)
      ensures d.instance < |instances| && heard == old(instances)[d.instance].audible
      ensures d !in queue && old(queue) - {d} <= queue
      ensures forall e | e in queue && e !in old(queue) ::
                e.at == now + interval(e.seqNo) && e.seqNo > old(made) && e.instance == d.instance && heard
      ensures heard ==> NamedAnew(queue, old(queue), d.instance)
    {
      ghost var due :| due in queue && Due(due, now);
      d := Pop();
      assert d == due || Before(d, due);
      heard := instances[d.instance].audible;
      if heard {
        Fire(d.instance, now);
        assert Deadline(now + interval(made), made, d.instance) in queue;
      }
    }

    /** Fire every sound whose deadline has passed and that can still be heard,
        and queue it again; one that cannot leaves the queue. The deadlines passed
        are taken first to last, each sound once, and none is left. */
    method Tick(now: real) returns (fired: seq<nat>, ghost taken: seq<Deadline>)
      requires Valid()
      modifies this
      ensures Valid() && forall d | d in queue :: d.at >= now
      ensures (forall d :: d in taken <==> d in old(queue) && d.at < now)
      ensures forall i, j | 0 <= i < j < |taken| ::
                taken[i].at < taken[j].at || (taken[i].at == taken[j].at && taken[i].seqNo < taken[j].seqNo)
      ensures fired == Heard(old(instances), taken) && Distinct(fired)
      ensures forall d | d in old(queue) && !Due(d, now) :: d in queue
      ensures forall d | d in queue && d !in old(queue) :: d.instance in fired && d.at == now + interval(d.seqNo)
      ensures forall i | i in fired :: NamedAnew(queue, old(queue), i)
      ensures SameSounds(old(instances), instances)
    {
      fired, taken := [], [];
      ghost var was, had := queue, instances;
      while queue != {}
        invariant Ticking(was, had, taken, fired, now)
        decreases |DueOf(queue, now)|
      {
        var first := First();
        if !Due(first, now) {
          NoneIsDue(queue, first, now);
          break;
        }
        ghost var d;
        fired, d := TickOnce(now, was, had, taken, fired);
        taken := taken + [d];
      }
      TakenAll(was, queue, taken, now);
      TakenAreDistinct(had, was, old(made), taken);
    }

    /** Where a tick is: `taken` of the deadlines it began with, `fired` of its sounds. */
    ghost predicate Ticking(was: set<Deadline>, had: seq<Instance>, taken: seq<Deadline>, fired: seq<nat>, now: real)
      reads this
    {
      && Valid() && SameSounds(had, instances) && (forall d | d in was :: d.seqNo <= made)
      && Progress(was, queue, taken, now) && fired == Heard(had, taken)
      && (forall d | d in queue && d !in was :: d.instance in fired && d.at == now + interval(d.seqNo))
      && forall i | i in fired :: NamedAnew(queue, was, i)
    }

    method TickOnce(now: real, ghost was: set<Deadline>, ghost had: seq<Instance>, ghost taken: seq<Deadline>, fired: seq<nat>)
      returns (next: seq<nat>, ghost d: Deadline)
      requires Ticking(was, had, taken, fired, now) && exists first :: first in queue && Due(first, now)
      modifies this
      ensures Ticking(was, had, taken + [d], next, now)
      ensures |DueOf(queue, now)| < |DueOf(old(queue), now)|
    {
      ghost var before := queue;
      var taking, heard := TakeDue(now);
      d := taking;
      StepProgress(was, before, taken, now, d, queue);
      HeardMore(had, taken, d);
      TakenLeaves(was, before, queue, fired, d, heard);
      next := if heard then fired + [taking.instance] else fired;
    }
  }

  predicate Rising(s: seq<nat>) {
    forall j, k | 0 <= j < k < |s| :: s[j] < s[k]
  }

  lemma RisingMore(s: seq<nat>, i: nat)
    requires Rising(s) && forall j | j in s :: j < i
    ensures Rising(s + [i])
  {
    forall j, k | 0 <= j < k < |s| + 1 ensures (s + [i])[j] < (s + [i])[k] {
      assert s[j] in s;
    }
  }

  /** Sounds queued anew stay so when one more deadline comes. */
  lemma FiredStay(was: set<Deadline>, before: set<Deadline>, after: set<Deadline>, fired: seq<nat>, d: Deadline)
    requires was <= before && after == before + {d} && !Named(before, d.instance)
    requires forall i | i in fired :: NamedAnew(before, was, i)
    ensures forall i | i in fired + [d.instance] :: NamedAnew(after, was, i)
  {
    forall i | i in fired ensures NamedAnew(after, was, i) {
      var e :| e in before && e !in was && e.instance == i;
      assert e in after;
    }
    assert d !in was && d in after;
  }

  /** And when one deadline of before is taken. */
  lemma TakenLeaves(was: set<Deadline>, before: set<Deadline>, after: set<Deadline>, fired: seq<nat>, d: Deadline, heard: bool)
    requires d in was && before - {d} <= after && (heard ==> NamedAnew(after, before, d.instance))
    requires forall e | e in after && e !in before :: e !in was
    requires forall i | i in fired :: NamedAnew(before, was, i)
    ensures forall i | i in (if heard then fired + [d.instance] else fired) :: NamedAnew(after, was, i)
  {
    forall i | i in fired ensures NamedAnew(after, was, i) {
      var e :| e in before && e !in was && e.instance == i;
      assert e in after;
    }
    if heard {
      var e :| e in after && e !in before && e.instance == d.instance;
      assert e !in was;
    }
  }

  lemma NoneIsDue(queue: set<Deadline>, first: Deadline, now: real)
    requires first in queue && !Due(first, now) && forall e | e in queue && e != first :: Before(first, e)
    ensures DueOf(queue, now) == {}
  {
    forall d | d in queue ensures !Due(d, now) {
      assert d == first || Before(first, d);
    }
  }

  lemma HeardMore(instances: seq<Instance>, taken: seq<Deadline>, d: Deadline)
    requires d.instance < |instances|
    ensures Heard(instances, taken + [d]) == Heard(instances, taken) + if instances[d.instance].audible then [d.instance] else []
  {
    assert (taken + [d])[..|taken|] == taken;
  }

  lemma TakenAll(was: set<Deadline>, queue: set<Deadline>, taken: seq<Deadline>, now: real)
    requires Progress(was, queue, taken, now) && DueOf(queue, now) == {}
    ensures (set d | d in taken) == DueOf(was, now)
    ensures forall d | d in was && !Due(d, now) :: d in queue
  {
    forall d ensures d in taken <==> d in DueOf(was, now) {
      assert d in DueOf(queue, now) ==> false;
    }
  }

  predicate SameSounds(a: seq<Instance>, b: seq<Instance>) {
    |a| == |b| && forall i | 0 <= i < |a| :: a[i].key == b[i].key && a[i].audible == b[i].audible
  }

  predicate Distinct(s: seq<nat>) {
    forall i, j | 0 <= i < j < |s| :: s[i] != s[j]
  }

  /** Part of the due deadlines taken, in order; the rest of the queue untouched,
      and nothing new that is due. */
  ghost predicate Progress(was: set<Deadline>, queue: set<Deadline>, taken: seq<Deadline>, now: real) {
    && Ordered(taken)
    && (forall d | d in taken :: d in was && Due(d, now) && d !in queue)
    && (forall d | d in was && d !in taken :: d in queue)
    && (forall d | d in queue && d !in was :: !Due(d, now))
    && (forall d, e | d in taken && e in queue && e in was :: Before(d, e))
  }

  lemma StepProgress(was: set<Deadline>, queue: set<Deadline>, taken: seq<Deadline>, now: real, d: Deadline, after: set<Deadline>)
    requires Progress(was, queue, taken, now)
    requires d in queue && Due(d, now) && forall e | e in queue && e != d :: Before(d, e)
    requires d !in after && queue - {d} <= after && forall e | e in after && e !in queue :: !Due(e, now) && e !in was
    ensures Progress(was, after, taken + [d], now)
    ensures DueOf(after, now) == DueOf(queue, now) - {d}
  {
    var next := taken + [d];
    assert d in was;
    forall i, j | 0 <= i < j < |next| ensures Before(next[i], next[j]) {
      if j == |taken| {
        assert taken[i] in taken;
      }
    }
  }

  lemma DistinctGrows(s: seq<nat>, n: nat)
    requires Distinct(s) && n !in s
    ensures Distinct(s + [n])
  {
    forall i, j | 0 <= i < j < |s| + 1 ensures (s + [n])[i] != (s + [n])[j] {
      assert j == |s| ==> s[i] in s;
    }
  }

  /** Deadlines of a queue that fits name different sounds. */
  lemma {:induction false} TakenAreDistinct(instances: seq<Instance>, queue: set<Deadline>, made: nat, taken: seq<Deadline>)
    requires Fits(instances, queue, made) && Ordered(taken) && forall d | d in taken :: d in queue
    ensures Distinct(Heard(instances, taken))
    ensures forall i | i in Heard(instances, taken) :: exists d :: d in taken && d.instance == i
  {
    if taken != [] {
      var front, last := taken[..|taken| - 1], taken[|taken| - 1];
      assert forall d | d in front :: d in taken;
      TakenAreDistinct(instances, queue, made, front);
      assert last in taken;
      forall d | d in front ensures d.instance != last.instance {
        var i :| 0 <= i < |front| && front[i] == d;
        assert Before(taken[i], last);
      }
      forall i | i in Heard(instances, front) ensures i != last.instance {
        var d :| d in front && d.instance == i;
      }
      DistinctGrows(Heard(instances, front), last.instance);
      forall i | i in Heard(instances, taken) ensures exists d :: d in taken && d.instance == i {
        if i in Heard(instances, front) {
          var d :| d in front && d.instance == i;
          assert d in taken;
        } else {
          assert last in taken && last.instance == i;
        }
      }
    }
  }

  lemma FiredFits(instances: seq<Instance>, queue: set<Deadline>, made: nat, i: nat, d: Deadline)
    requires Fits(instances, queue, made) && i < |instances| && !instances[i].onQueue
    requires d.instance == i && d.seqNo == made + 1
    ensures Fits(instances[i := instances[i].(onQueue := true)], queue + {d}, made + 1)
  {
    var after, q := instances[i := instances[i].(onQueue := true)], queue + {d};
    assert !Named(queue, i);
    forall j | 0 <= j < |after| ensures after[j].onQueue <==> Named(q, j) {
      if Named(queue, j) {
        var e :| e in queue && e.instance == j;
        assert e in q;
      }
      assert j == i ==> d in q && d.instance == j;
    }
  }

  lemma PoppedFits(instances: seq<Instance>, queue: set<Deadline>, made: nat, d: Deadline)
    requires Fits(instances, queue, made) && d in queue
    ensures Fits(instances[d.instance := instances[d.instance].(onQueue := false)], queue - {d}, made)
  {
    var after, q := instances[d.instance := instances[d.instance].(onQueue := false)], queue - {d};
    forall j | 0 <= j < |after| ensures after[j].onQueue <==> Named(q, j) {
      if j != d.instance && Named(queue, j) {
        var e :| e in queue && e.instance == j;
        assert e in q;
      }
    }
  }
}
