/** A least-recently-used store as the program keeps it: a map of stamped entries, and
    a second map from stamps back to keys, so that the oldest is found without going
    through all. The second is always the inverse of the first; together they are shown
    to be a plain list in order of use, which is how the store is understood elsewhere. */
module Lru {
  import opened Wrappers
  import opened Recency

  datatype Slot<V> = Slot(value: V, bytes: nat, lastUse: int)

  /** The use order is the inverse of the entries' stamps. */
  predicate Inverse<K(==), V>(entries: map<K, Slot<V>>, order: map<int, K>, clock: int) {
    && (forall key | key in entries ::
          entries[key].lastUse in order && order[entries[key].lastUse] == key && entries[key].lastUse <= clock)
    && (forall stamp | stamp in order :: order[stamp] in entries && entries[order[stamp]].lastUse == stamp)
  }

  ghost predicate ItemOf<K, V>(entries: map<K, Slot<V>>, item: Item<K, V>) {
    && item.key in entries
    && entries[item.key].value == item.value
    && entries[item.key].bytes == item.size
  }

  ghost predicate Earlier<K, V>(entries: map<K, Slot<V>>, a: K, b: K) {
    a in entries && b in entries && entries[a].lastUse < entries[b].lastUse
  }

  /** The list is the entries in the order of their stamps. */
  ghost predicate Listed<K, V>(entries: map<K, Slot<V>>, items: seq<Item<K, V>>) {
    && (forall i {:trigger ItemOf(entries, items[i])} | 0 <= i < |items| :: ItemOf(entries, items[i]))
    && (forall key {:trigger Recency.Holds(items, key)} | key in entries :: Recency.Holds(items, key))
    && (forall i, j {:trigger Earlier(entries, items[i].key, items[j].key)} | 0 <= i < j < |items| ::
          Earlier(entries, items[i].key, items[j].key))
  }

  // ---- What each step keeps ---------------------------------------------------------

  lemma UnheldIsUnlisted<K, V>(entries: map<K, Slot<V>>, items: seq<Item<K, V>>, key: K)
    requires Listed(entries, items)
    ensures key in entries <==> IndexOf(items, key) < |items|
    ensures Lookup(items, key) == if key in entries then Some(entries[key].value) else None
  {
    var i := IndexOf(items, key);
    assert key in entries ==> Recency.Holds(items, key);
    assert i < |items| ==> ItemOf(entries, items[i]);
  }

  lemma ListedIsDistinct<K, V>(entries: map<K, Slot<V>>, items: seq<Item<K, V>>)
    requires Listed(entries, items)
    ensures DistinctKeys(items)
  {
    forall i, j | 0 <= i < j < |items| ensures items[i].key != items[j].key {
      assert Earlier(entries, items[i].key, items[j].key);
    }
  }

  lemma ListedCount<K, V>(entries: map<K, Slot<V>>, items: seq<Item<K, V>>)
    requires Listed(entries, items)
    ensures |entries| == |items|
  {
    ListedIsDistinct(entries, items);
    KeysCount(items);
    var keys := set i | 0 <= i < |items| :: items[i].key;
    forall key ensures key in entries <==> key in keys {
      if key in entries {
        assert Recency.Holds(items, key);
      }
      if key in keys {
        var i :| 0 <= i < |items| && items[i].key == key;
        assert ItemOf(entries, items[i]);
      }
    }
    assert entries.Keys == keys;
  }

  lemma {:induction false} KeysCount<K, V>(items: seq<Item<K, V>>)
    requires DistinctKeys(items)
    ensures |set i | 0 <= i < |items| :: items[i].key| == |items|
  {
    if items != [] {
      var last := |items| - 1;
      var front := items[..last];
      KeysCount(front);
      assert (set i | 0 <= i < |items| :: items[i].key) == (set i | 0 <= i < |front| :: front[i].key) + {items[last].key};
    }
  }

  /** Where item `k` of the list after a touch stood before it. */
  function Before<T>(s: seq<T>, i: nat, k: nat): nat
    requires i < |s| && k < |s|
  {
    if k < i then k else if k + 1 < |s| then k + 1 else i
  }

  lemma MovedFrom<T>(s: seq<T>, i: nat, k: nat)
    requires i < |s| && k < |s|
    ensures Moved(s, i, s[i])[k] == s[Before(s, i, k)]
    ensures Before(s, i, k) < |s|
  {
    MovedElement(s, i, s[i], k);
  }

  lemma TouchKeepsItemOf<K, V>(entries: map<K, Slot<V>>, item: Item<K, V>, key: K, now: int)
    requires ItemOf(entries, item) && key in entries
    ensures ItemOf(entries[key := entries[key].(lastUse := now)], item)
  {
  }

  lemma TouchOrders<K, V>(entries: map<K, Slot<V>>, items: seq<Item<K, V>>, i: nat, now: int, j: nat, k: nat)
    requires Listed(entries, items) && i < |items| && j < k < |items|
    requires forall e | e in entries :: entries[e].lastUse < now
    requires items[i].key in entries
    ensures
      var key, moved := items[i].key, Moved(items, i, items[i]);
      Earlier(entries[key := entries[key].(lastUse := now)], moved[j].key, moved[k].key)
  {
    MovedFrom(items, i, j);
    MovedFrom(items, i, k);
    ListedIsDistinct(entries, items);
    var a, b := Before(items, i, j), Before(items, i, k);
    assert ItemOf(entries, items[a]) && ItemOf(entries, items[b]);
    assert items[a].key != items[i].key;
    if b != i {
      assert Earlier(entries, items[a].key, items[b].key);
    }
  }

  lemma TouchIsListed<K, V>(entries: map<K, Slot<V>>, items: seq<Item<K, V>>, key: K, now: int)
    requires Listed(entries, items) && key in entries
    requires forall k | k in entries :: entries[k].lastUse < now
    ensures Listed(entries[key := entries[key].(lastUse := now)], Touched(items, key))
  {
    var after, moved := entries[key := entries[key].(lastUse := now)], Touched(items, key);
    UnheldIsUnlisted(entries, items, key);
    var i := IndexOf(items, key);
    forall k | 0 <= k < |moved| ensures ItemOf(after, moved[k]) {
      MovedFrom(items, i, k);
      TouchKeepsItemOf(entries, items[Before(items, i, k)], key, now);
    }
    TouchedKeepsItems(items, key);
    forall k | k in after ensures Recency.Holds(moved, k) {
      assert Recency.Holds(items, k);
      var j :| 0 <= j < |items| && items[j].key == k;
      assert items[j] in multiset(items);
      assert items[j] in moved;
    }
    forall j, k | 0 <= j < k < |moved| ensures Earlier(after, moved[j].key, moved[k].key) {
      TouchOrders(entries, items, i, now, j, k);
    }
  }

  lemma OldestIsFirst<K, V>(entries: map<K, Slot<V>>, order: map<int, K>, clock: int, items: seq<Item<K, V>>, first: int)
    requires Inverse(entries, order, clock) && Listed(entries, items)
    requires first in order && forall stamp | stamp in order :: first <= stamp
    ensures items != [] && items[0].key == order[first]
    ensures entries[order[first]].bytes == items[0].size
  {
    var key := order[first];
    assert Recency.Holds(items, key);
    var j :| 0 <= j < |items| && items[j].key == key;
    assert ItemOf(entries, items[0]) && ItemOf(entries, items[j]);
    assert j > 0 ==> Earlier(entries, items[0].key, items[j].key);
  }

  lemma EvictIsListed<K, V>(entries: map<K, Slot<V>>, items: seq<Item<K, V>>)
    requires Listed(entries, items) && items != []
    ensures Listed(entries - {items[0].key}, items[1..])
  {
    ListedIsDistinct(entries, items);
    var after, rest := entries - {items[0].key}, items[1..];
    forall k | 0 <= k < |rest| ensures ItemOf(after, rest[k]) {
      assert ItemOf(entries, items[k + 1]);
    }
    forall k | k in after ensures Recency.Holds(rest, k) {
      assert Recency.Holds(items, k);
      var j :| 0 <= j < |items| && items[j].key == k;
      assert rest[j - 1].key == k;
    }
    forall i, j | 0 <= i < j < |rest| ensures Earlier(after, rest[i].key, rest[j].key) {
      assert Earlier(entries, items[i + 1].key, items[j + 1].key);
    }
  }

  lemma InsertIsListed<K, V>(entries: map<K, Slot<V>>, items: seq<Item<K, V>>, item: Item<K, V>, now: int)
    requires Listed(entries, items) && item.key !in entries
    requires forall k | k in entries :: entries[k].lastUse < now
    ensures Listed(entries[item.key := Slot(item.value, item.size, now)], items + [item])
  {
    var after, all := entries[item.key := Slot(item.value, item.size, now)], items + [item];
    forall k | 0 <= k < |all| ensures ItemOf(after, all[k]) {
      if k < |items| {
        assert ItemOf(entries, items[k]);
      }
    }
    forall k | k in after ensures Recency.Holds(all, k) {
      if k == item.key {
        assert all[|items|].key == k;
      } else {
        assert Recency.Holds(items, k);
        var j :| 0 <= j < |items| && items[j].key == k;
        assert all[j].key == k;
      }
    }
    forall i, j | 0 <= i < j < |all| ensures Earlier(after, all[i].key, all[j].key) {
      assert ItemOf(entries, items[i]);
      if j < |items| {
        assert Earlier(entries, items[i].key, items[j].key);
      }
    }
  }

  lemma StampsPast<K, V>(entries: map<K, Slot<V>>, order: map<int, K>, clock: int)
    requires Inverse(entries, order, clock)
    ensures forall k | k in entries :: entries[k].lastUse < clock + 1
  {
  }

  lemma TouchInverse<K, V>(entries: map<K, Slot<V>>, order: map<int, K>, clock: int, key: K)
    requires Inverse(entries, order, clock) && key in entries
    ensures
      var slot := entries[key];
      Inverse(entries[key := slot.(lastUse := clock + 1)], (order - {slot.lastUse})[clock + 1 := key], clock + 1)
  {
  }

  lemma EvictInverse<K, V>(entries: map<K, Slot<V>>, order: map<int, K>, clock: int, first: int)
    requires Inverse(entries, order, clock) && first in order
    ensures Inverse(entries - {order[first]}, order - {first}, clock)
  {
  }

  lemma InsertInverse<K, V>(entries: map<K, Slot<V>>, order: map<int, K>, clock: int, key: K, value: V, size: nat)
    requires Inverse(entries, order, clock) && key !in entries
    ensures Inverse(entries[key := Slot(value, size, clock + 1)], order[clock + 1 := key], clock + 1)
  {
  }

  // ---- The bookkeeping --------------------------------------------------------------------

  class Lru<K(==), V> {
    var entries: map<K, Slot<V>>
    var order: map<int, K>
    var clock: int
    var bytes: nat
    ghost var items: seq<Item<K, V>>

    ghost predicate Valid()
      reads this
    {
      && Inverse(entries, order, clock)
      && Listed(entries, items)
      && bytes == TotalSize(items)
    }

    constructor ()
      ensures Valid() && items == []
    {
      entries, order, clock, bytes := map[], map[], 0, 0;
      items := [];
    }

    /** The entry, now the most recently used. */
    method Touch(key: K) returns (found: Option<V>)
      requires Valid()
      modifies this
      ensures Valid()
      ensures found == Lookup(old(items), key) && items == Touched(old(items), key)
      ensures found.None? ==> key !in entries
    {
      UnheldIsUnlisted(entries, items, key);
      var now := clock + 1;
      if key !in entries {
        clock := now;
        return None;
      }
      var slot := entries[key];
      StampsPast(entries, order, clock);
      TouchInverse(entries, order, clock, key);
      TouchIsListed(entries, items, key, now);
      TouchedKeepsItems(items, key);
      clock := now;
      order := (order - {slot.lastUse})[now := key];
      entries := entries[key := slot.(lastUse := now)];
      items := Touched(items, key);
      found := Some(slot.value);
    }

    /** Drop the least recently used entry; false when empty. */
    method EvictOldest() returns (dropped: bool)
      requires Valid()
      modifies this
      ensures Valid()
      ensures dropped == (old(items) != [])
      ensures items == if dropped then old(items)[1..] else []
      ensures forall key | key in entries :: key in old(entries)
    {
      if order == map[] {
        assert items != [] ==> ItemOf(entries, items[0]);
        return false;
      }
      var first := FirstStamp();
      OldestIsFirst(entries, order, clock, items, first);
      EvictInverse(entries, order, clock, first);
      EvictIsListed(entries, items);
      var key := order[first];
      bytes := bytes - entries[key].bytes;
      order := order - {first};
      entries := entries - {key};
      items := items[1..];
      dropped := true;
    }

    method FirstStamp() returns (first: int)
      requires order != map[]
      ensures first in order && forall stamp | stamp in order :: first <= stamp
    {
      LeastExists(order.Keys);
      first :| first in order && forall stamp | stamp in order :: first <= stamp;
    }

    method Insert(key: K, value: V, size: nat)
      requires Valid() && key !in entries
      modifies this
      ensures Valid()
      ensures items == old(items) + [Item(key, value, size)]
    {
      StampsPast(entries, order, clock);
      InsertInverse(entries, order, clock, key, value, size);
      InsertIsListed(entries, items, Item(key, value, size), clock + 1);
      TotalSizeOfSum(items, [Item(key, value, size)]);
      clock := clock + 1;
      order := order[clock := key];
      entries := entries[key := Slot(value, size, clock)];
      bytes := bytes + size;
      items := items + [Item(key, value, size)];
    }

    /** Drop the oldest until one more item of `size` fits. */
    method DropForRoom(limits: Limits, size: nat)
      requires Valid()
      modifies this
      ensures Valid() && items == MakeRoom(old(items), limits, size)
      ensures forall key | key in entries :: key in old(entries)
    {
      ListedCount(entries, items);
      while |entries| > 0 && (|entries| >= limits.entries || bytes + size > limits.bytes)
        invariant Valid() && |entries| == |items|
        invariant MakeRoom(items, limits, size) == MakeRoom(old(items), limits, size)
        invariant forall key | key in entries :: key in old(entries)
        decreases |items|
      {
        var dropped := EvictOldest();
        ListedCount(entries, items);
      }
    }

    /** Offer a value: the caches' one way to grow. */
    method Offer(key: K, value: V, size: nat, limits: Limits) returns (used: V)
      requires Valid()
      modifies this
      ensures Valid()
      ensures (items, used) == Offered(old(items), limits, Item(key, value, size))
    {
      UnheldIsUnlisted(entries, items, key);
      var existing := Touch(key);
      if existing.Some? {
        return existing.value;
      }
      if limits.entries == 0 || size > limits.bytes {
        return value;
      }
      DropForRoom(limits, size);
      Insert(key, value, size);
      used := value;
    }
  }

  lemma {:induction false} LeastExists(s: set<int>)
    requires s != {}
    ensures exists least :: least in s && forall n | n in s :: least <= n
    decreases |s|
  {
    assert (forall n :: n !in s) ==> s == {};
    var n :| n in s;
    if s == {n} {
      assert forall m | m in s :: n <= m;
    } else {
      var rest := s - {n};
      LeastExists(rest);
      var m :| m in rest && forall k | k in rest :: m <= k;
      var least := if n < m then n else m;
      forall k | k in s ensures least <= k {
        assert k == n || k in rest;
      }
      assert least in s;
    }
  }
}
