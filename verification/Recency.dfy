/** A bounded cache as a plain list: what it holds, oldest use first. */
module Recency {
  import opened Wrappers

  datatype Item<K, V> = Item(key: K, value: V, size: nat)

  /** How many items, and how many bytes in all, are kept. */
  datatype Limits = Limits(entries: nat, bytes: nat)

  predicate DistinctKeys<K(==), V>(items: seq<Item<K, V>>) {
    forall i, j | 0 <= i < j < |items| :: items[i].key != items[j].key
  }

  function TotalSize<K, V>(items: seq<Item<K, V>>): nat {
    if items == [] then 0 else items[0].size + TotalSize(items[1..])
  }

  /** Where `key` stands from `i` on; the length when it is not held. */
  function IndexFrom<K(==), V>(items: seq<Item<K, V>>, key: K, i: nat): (r: nat)
    requires i <= |items|
    ensures i <= r <= |items|
    ensures forall j | i <= j < r :: items[j].key != key
    ensures r < |items| ==> items[r].key == key
    decreases |items| - i
  {
    if i == |items| || items[i].key == key then i else IndexFrom(items, key, i + 1)
  }

  function IndexOf<K(==), V>(items: seq<Item<K, V>>, key: K): (r: nat)
    ensures r <= |items|
  {
    IndexFrom(items, key, 0)
  }

  predicate Holds<K(==), V>(items: seq<Item<K, V>>, key: K) {
    exists i | 0 <= i < |items| :: items[i].key == key
  }

  function Lookup<K(==), V>(items: seq<Item<K, V>>, key: K): Option<V> {
    var i := IndexOf(items, key);
    if i < |items| then Some(items[i].value) else None
  }

  function Moved<T>(s: seq<T>, i: nat, last: T): seq<T>
    requires i < |s|
  {
    s[..i] + s[i + 1..] + [last]
  }

  /** The list after `key` is used: its item, if held, is now the last. */
  function Touched<K(==), V>(items: seq<Item<K, V>>, key: K): seq<Item<K, V>> {
    var i := IndexOf(items, key);
    if i < |items| then Moved(items, i, items[i]) else items
  }

  predicate Full<K, V>(items: seq<Item<K, V>>, limits: Limits, size: nat) {
    |items| >= limits.entries || TotalSize(items) + size > limits.bytes
  }

  /** The oldest go until one more item of `size` fits, or nothing is left. */
  function MakeRoom<K, V>(items: seq<Item<K, V>>, limits: Limits, size: nat): seq<Item<K, V>> {
    if items != [] && Full(items, limits, size) then MakeRoom(items[1..], limits, size) else items
  }

  predicate Fits(limits: Limits, size: nat) {
    limits.entries > 0 && size <= limits.bytes
  }

  /** The list after `value` is offered under `key`, and the value to use: the
      one already held wins, and what can never fit is not kept. */
  function Offered<K(==), V>(items: seq<Item<K, V>>, limits: Limits, item: Item<K, V>): (seq<Item<K, V>>, V) {
    if Lookup(items, item.key).Some? then (Touched(items, item.key), Lookup(items, item.key).value)
    else if !Fits(limits, item.size) then (items, item.value)
    else (MakeRoom(items, limits, item.size) + [item], item.value)
  }

  predicate Within<K(==), V>(items: seq<Item<K, V>>, limits: Limits) {
    DistinctKeys(items) && |items| <= limits.entries && TotalSize(items) <= limits.bytes
  }

  // ---- What the list keeps ----------------------------------------------------

  lemma {:induction false} TotalSizeOfSum<K, V>(a: seq<Item<K, V>>, b: seq<Item<K, V>>)
    ensures TotalSize(a + b) == TotalSize(a) + TotalSize(b)
  {
    if a == [] {
      assert a + b == b;
    } else {
      assert (a + b)[1..] == a[1..] + b;
      TotalSizeOfSum(a[1..], b);
    }
  }

  lemma MovedKeepsItems<K, V>(a: seq<Item<K, V>>, item: Item<K, V>, b: seq<Item<K, V>>)
    ensures multiset(a + b + [item]) == multiset(a + [item] + b)
    ensures TotalSize(a + b + [item]) == TotalSize(a + [item] + b)
  {
    TotalSizeOfSum(a + b, [item]);
    TotalSizeOfSum(a, b);
    TotalSizeOfSum(a + [item], b);
    TotalSizeOfSum(a, [item]);
  }

  /** Using an item changes only the order. */
  lemma TouchedKeepsItems<K, V>(items: seq<Item<K, V>>, key: K)
    ensures multiset(Touched(items, key)) == multiset(items)
    ensures TotalSize(Touched(items, key)) == TotalSize(items)
    ensures |Touched(items, key)| == |items|
  {
    var i := IndexOf(items, key);
    if i < |items| {
      assert items == items[..i] + [items[i]] + items[i + 1..];
      MovedKeepsItems(items[..i], items[i], items[i + 1..]);
    }
  }

  lemma MovedElement<T>(s: seq<T>, i: nat, last: T, k: nat)
    requires i < |s| && k < |s|
    ensures Moved(s, i, last)[k] == if k < i then s[k] else if k + 1 < |s| then s[k + 1] else last
  {
  }

  lemma TouchedKeepsDistinct<K, V>(items: seq<Item<K, V>>, key: K)
    requires DistinctKeys(items)
    ensures DistinctKeys(Touched(items, key))
  {
    var i := IndexOf(items, key);
    if i < |items| {
      var moved := Touched(items, key);
      forall j, k | 0 <= j < k < |moved| ensures moved[j].key != moved[k].key {
        MovedElement(items, i, items[i], j);
        MovedElement(items, i, items[i], k);
      }
    }
  }

  /** What goes is a front of the list, no more of it than needed, and the rest
      leaves room. */
  lemma {:induction false} MakeRoomDropsOldest<K, V>(items: seq<Item<K, V>>, limits: Limits, size: nat) returns (n: nat)
    ensures n <= |items| && MakeRoom(items, limits, size) == items[n..]
    ensures Fits(limits, size) ==> !Full(items[n..], limits, size)
    ensures forall m: nat | m < n :: Full(items[m..], limits, size)
    ensures TotalSize(items[n..]) <= TotalSize(items)
  {
    if items != [] && Full(items, limits, size) {
      var m := MakeRoomDropsOldest(items[1..], limits, size);
      n := m + 1;
      assert items[1..][m..] == items[n..];
      forall k: nat | k < n ensures Full(items[k..], limits, size) {
        if k > 0 {
          assert items[1..][k - 1..] == items[k..];
        } else {
          assert items[0..] == items;
        }
      }
    } else {
      n := 0;
      assert items[0..] == items;
    }
  }

  /** The cache never holds more than its limits allow. */
  lemma OfferedStaysWithin<K, V>(items: seq<Item<K, V>>, limits: Limits, item: Item<K, V>)
    requires Within(items, limits)
    ensures Within(Offered(items, limits, item).0, limits)
  {
    if Lookup(items, item.key).Some? {
      TouchedKeepsItems(items, item.key);
      TouchedKeepsDistinct(items, item.key);
    } else if Fits(limits, item.size) {
      var n := MakeRoomDropsOldest(items, limits, item.size);
      TotalSizeOfSum(items[n..], [item]);
    }
  }

  /** Every value held after an offer was held before or is the one offered. */
  lemma OfferedHoldsNothingElse<K, V>(items: seq<Item<K, V>>, limits: Limits, item: Item<K, V>, i: nat)
    requires i < |Offered(items, limits, item).0|
    ensures var kept := Offered(items, limits, item).0[i]; kept in items || kept == item
  {
    if Lookup(items, item.key).Some? {
      TouchedKeepsItems(items, item.key);
      assert Touched(items, item.key)[i] in multiset(items);
    } else if Fits(limits, item.size) {
      var n := MakeRoomDropsOldest(items, limits, item.size);
    }
  }

  /** What an offer does, in plain terms: an item held under the key is the one used, and
      the newest now; one too big for the limits is used and changes nothing; any other
      is the newest, and `n` of the oldest, no more than must, have gone. */
  lemma OfferDecides<K, V>(items: seq<Item<K, V>>, limits: Limits, item: Item<K, V>) returns (n: nat)
    ensures
      var (after, used) := Offered(items, limits, item);
      if exists i :: 0 <= i < |items| && items[i].key == item.key then
        && n < |items| && items[n].key == item.key && used == items[n].value
        && after == items[..n] + items[n + 1..] + [items[n]]
      else if limits.entries == 0 || item.size > limits.bytes then after == items && used == item.value
      else
        && n <= |items| && after == items[n..] + [item] && used == item.value
        && |after| <= limits.entries && TotalSize(items[n..]) + item.size <= limits.bytes
        && forall m: nat | m < n :: |items| - m >= limits.entries || TotalSize(items[m..]) + item.size > limits.bytes
  {
    n := IndexOf(items, item.key);
    if n == |items| && Fits(limits, item.size) {
      n := MakeRoomDropsOldest(items, limits, item.size);
      if n == |items| {
        assert items[n..] == [];
      }
      forall m: nat | m < n
        ensures |items| - m >= limits.entries || TotalSize(items[m..]) + item.size > limits.bytes
      {
        assert Full(items[m..], limits, item.size);
      }
    }
  }
}
