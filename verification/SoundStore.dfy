/** The waves the sound cache holds, as it keeps them: by id, with a stamp of
    their last use. It refines the plain list. */
module SoundStore {
  import opened Wrappers
  import opened Recency
  import opened Lru
  import SoundCache

  type Wave = SoundCache.Wave

  /** The entry with the least stamp is the list's first. */
  lemma LeastStampIsFirst<V>(entries: map<int, Slot<V>>, items: seq<Item<int, V>>, id: int)
    requires Listed(entries, items) && id in entries
    requires forall k | k in entries :: entries[id].lastUse <= entries[k].lastUse
    ensures items != [] && items[0].key == id && items[0].size == entries[id].bytes
  {
    assert Recency.Holds(items, id);
    var j :| 0 <= j < |items| && items[j].key == id;
    assert ItemOf(entries, items[0]) && ItemOf(entries, items[j]);
    assert j > 0 ==> Earlier(entries, items[0].key, items[j].key);
  }

  class Waves {
    const setting: SoundCache.Setting
    var entries: map<int, Slot<Wave>>
    var nextStamp: int
    var resident: nat
    ghost var items: seq<Item<int, Wave>>

    predicate Stamped()
      reads this
    {
      forall id | id in entries :: entries[id].lastUse <= nextStamp
    }

    /** The bytes counted are the bytes held, and within the budget. */
    ghost predicate Valid()
      reads this
    {
      setting.Valid() && Stamped() && Listed(entries, items)
      && resident == TotalSize(items) && SoundCache.Bounded(setting, items)
    }

    constructor (setting: SoundCache.Setting)
      requires setting.Valid()
      ensures Valid() && items == [] && this.setting == setting
    {
      this.setting := setting;
      entries, nextStamp, resident, items := map[], 0, 0, [];
    }

    method Touch(id: int) returns (found: Option<Wave>)
      requires Valid()
      modifies this
      ensures Valid()
      ensures found == Lookup(old(items), id) && items == Touched(old(items), id)
      ensures found.None? ==> id !in entries && entries == old(entries)
    {
      UnheldIsUnlisted(entries, items, id);
      var stamp := nextStamp + 1;
      if id !in entries {
        nextStamp := stamp;
        return None;
      }
      assert forall k | k in entries :: entries[k].lastUse < stamp;
      TouchIsListed(entries, items, id, stamp);
      TouchedKeepsItems(items, id);
      TouchedKeepsDistinct(items, id);
      nextStamp := stamp;
      entries := entries[id := entries[id].(lastUse := stamp)];
      items := Touched(items, id);
      found := Some(entries[id].value);
    }

    /** The least recently used. */
    method Oldest() returns (id: int)
      requires entries != map[]
      ensures id in entries && forall k | k in entries :: entries[id].lastUse <= entries[k].lastUse
    {
      var stamps := set k | k in entries :: entries[k].lastUse;
      assert (forall k :: k !in entries) ==> entries == map[];
      ghost var some :| some in entries;
      assert entries[some].lastUse in stamps;
      LeastExists(stamps);
      var least :| least in stamps && forall n | n in stamps :: least <= n;
      id :| id in entries && entries[id].lastUse == least;
      forall k | k in entries ensures entries[id].lastUse <= entries[k].lastUse {
        assert entries[k].lastUse in stamps;
      }
    }

    method Evict()
      requires Valid() && entries != map[]
      modifies this
      ensures Valid() && old(items) != [] && items == old(items)[1..]
      ensures forall id | id in entries :: id in old(entries)
      ensures nextStamp == old(nextStamp)
    {
      var oldest := Oldest();
      LeastStampIsFirst(entries, items, oldest);
      EvictIsListed(entries, items);
      resident := resident - entries[oldest].bytes;
      entries := entries - {oldest};
      items := items[1..];
    }

    method EvictForRoom(bytes: nat)
      requires Valid() && bytes <= setting.budget
      modifies this
      ensures Valid() && resident + bytes <= setting.budget
      ensures items == MakeRoom(old(items), SoundCache.Budget(setting, old(items)), bytes)
      ensures forall id | id in entries :: id in old(entries)
    {
      ghost var limits := SoundCache.Budget(setting, items);
      while resident + bytes > setting.budget
        invariant Valid() && |items| <= |old(items)|
        invariant MakeRoom(items, limits, bytes) == MakeRoom(old(items), limits, bytes)
        invariant forall id | id in entries :: id in old(entries)
        decreases |items|
      {
        ListedCount(entries, items);
        assert items != [];
        Evict();
      }
    }

    /** Offer a wave: the one held already, or this one, kept unless it is larger
        than the whole budget. */
    method Admit(w: Wave) returns (used: Wave)
      requires Valid()
      modifies this
      ensures Valid()
      ensures (items, used) == SoundCache.Admitted(setting, old(items), w)
    {
      var bytes := setting.Charge(w.id);
      UnheldIsUnlisted(entries, items, w.id);
      var existing := Touch(w.id);
      if existing.Some? {
        return existing.value;
      }
      if bytes > setting.budget {
        return w;
      }
      EvictForRoom(bytes);
      var stamp := nextStamp + 1;
      assert Stamped();
      assert forall k | k in entries :: entries[k].lastUse < stamp;
      InsertIsListed(entries, items, setting.ItemOf(w), stamp);
      ListedIsDistinct(entries[w.id := Slot(w, bytes, stamp)], items + [setting.ItemOf(w)]);
      nextStamp := stamp;
      TotalSizeOfSum(items, [setting.ItemOf(w)]);
      entries := entries[w.id := Slot(w, bytes, stamp)];
      resident := resident + bytes;
      items := items + [setting.ItemOf(w)];
      used := w;
    }
  }
}
