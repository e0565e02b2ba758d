/** phlyght/utils.py: the final revision of the bounded set of timestamped entries. An
    overflowing insertion evicts the NEWEST entries, since the stamps are sorted ascending
    and the order then reversed before the slice is taken. The clock, `int(time())`, is the
    parameter `now` of each operation that wraps items. */
module UtilsLru {
  import opened Results
  import opened Eviction

  class LRU<V(==)> {
    /** The set itself: `LRU` subclasses `set` and holds its entries directly. */
    var entries: set<Entry<V>>
    var maxsize: int

    /** `LRU(maxsize, *items)`: the deque created first refuses a negative length with
        ValueError; otherwise the first `maxsize` items are added one by one. */
    static method New(maxsize: int, items: seq<V>, now: int) returns (r: Result<LRU<V>>)
      ensures r.Err? <==> maxsize < 0
      ensures r.Err? ==> r.error == ValueError("maxlen")
      ensures r.Ok? ==> fresh(r.value) && r.value.maxsize == maxsize
      ensures r.Ok? ==> r.value.entries == Stamped(items[..Min(maxsize, |items|)], now)
    {
      if maxsize < 0 {
        return Err(ValueError("maxlen"));
      }
      var lru := new LRU(maxsize, items, now);
      return Ok(lru);
    }

    /** The body of `__init__` after the deque check. Each `add` starts below capacity, so
        none evicts and the set holds one entry per distinct leading item. */
    constructor (maxsize: int, items: seq<V>, now: int)
      requires maxsize >= 0
      ensures this.maxsize == maxsize
      ensures entries == Stamped(items[..Min(maxsize, |items|)], now)
    {
      this.maxsize := maxsize;
      entries := {};
      new;
      var n := Min(maxsize, |items|);
      var i := 0;
      while i < n
        invariant 0 <= i <= n
        invariant this.maxsize == maxsize
        invariant entries == Stamped(items[..i], now)
      {
        AddNextFitting(items, i, now);
        i := i + 1;
      }
    }

    /** One turn of the constructor's loop: the next item fits, so its entry is added and
        nothing is evicted. */
    method AddNextFitting(items: seq<V>, i: nat, now: int)
      requires i < |items| && i < maxsize && entries == Stamped(items[..i], now)
      modifies this
      ensures maxsize == old(maxsize) && entries == Stamped(items[..i + 1], now)
    {
      ghost var done := items[..i];
      assert items[..i + 1] == done + [items[i]];
      assert |entries| <= |done|;
      AddFitting(items[i], now);
      StampedSnoc(done, items[i], now);
    }

    /** An `add` that fits evicts nothing. */
    method AddFitting(item: V, now: int)
      requires |entries| + 1 <= maxsize
      modifies this
      ensures maxsize == old(maxsize) && entries == old(entries) + {Entry(item, now)}
    {
      var evicted := Add(item, now);
    }

    /** `add(item)`: when one more entry would overflow, evict the `len + 1 - maxsize`
        newest entries (never more than there are), then insert the item stamped `now`.
        Kept entries keep their stamps; with `maxsize >= 1` the set ends within capacity. */
    method Add(item: V, now: int) returns (ghost evicted: set<Entry<V>>)
      modifies this
      ensures maxsize == old(maxsize)
      ensures NewestSelected(old(entries), evicted, AddOverflow(|old(entries)|, maxsize))
      ensures entries == old(entries) - evicted + {Entry(item, now)}
      ensures |old(entries)| + 1 <= maxsize ==> evicted == {}
      ensures maxsize >= 1 ==> |entries| <= maxsize
    {
      evicted := {};
      if |entries| + 1 > maxsize {
        var newest := SelectNewest(entries, |entries| + 1 - maxsize);
        entries := entries - newest;
        evicted := newest;
      }
      entries := entries + {Entry(item, now)};
      if maxsize >= 1 {
        AddWithinCapacity(old(entries), evicted, Entry(item, now), maxsize);
      }
    }

    /** `pop()`: removes an arbitrary entry and returns None (the value is read and
        dropped); on an empty set `set.pop` raises KeyError. */
    method Pop() returns (r: Outcome, ghost popped: set<Entry<V>>)
      modifies this
      ensures maxsize == old(maxsize)
      ensures popped <= old(entries) && entries == old(entries) - popped
      ensures old(entries) == {} ==> r == Fail(KeyError("pop from an empty set"))
      ensures old(entries) != {} ==> r == Pass && |popped| == 1
    {
      if entries == {} {
        return Fail(KeyError("pop from an empty set")), {};
      }
      var e :| e in entries;
      entries := entries - {e};
      return Pass, {e};
    }

    /** `remove(item)`: deletes the one entry holding `item`; TypeError, and no change,
        when no entry or several entries hold it. */
    method Remove(item: V) returns (r: Outcome)
      modifies this
      ensures maxsize == old(maxsize)
      ensures RemoveByValue(old(entries), item).Ok? ==>
                r == Pass && entries == RemoveByValue(old(entries), item).value
      ensures RemoveByValue(old(entries), item).Err? ==>
                r == Fail(RemoveByValue(old(entries), item).error) && entries == old(entries)
    {
      var m := Matching(entries, item);
      if |m| == 1 {
        entries := entries - m;
        return Pass;
      }
      return Fail(TypeError("remove"));
    }

    /** `extend(*items)`: one eviction pass of the newest existing entries sized to the
        total overflow, then the union with all new entries. The bound holds only while the
        new items alone fit; with more items than `maxsize` the set ends holding just them. */
    method Extend(items: seq<V>, now: int) returns (ghost evicted: set<Entry<V>>)
      modifies this
      ensures maxsize == old(maxsize)
      ensures NewestSelected(old(entries), evicted, ExtendOverflow(|old(entries)|, |items|, maxsize))
      ensures entries == old(entries) - evicted + Stamped(items, now)
      ensures |items| <= maxsize ==> |entries| <= maxsize
      ensures |items| > maxsize ==> entries == Stamped(items, now)
    {
      evicted := {};
      var lenNew := |entries| + |items|;
      if lenNew > maxsize {
        var newest := SelectNewest(entries, lenNew - maxsize);
        entries := entries - newest;
        evicted := newest;
      }
      entries := entries + Stamped(items, now);
      if |items| <= maxsize {
        ExtendWithinCapacity(old(entries), evicted, items, now, maxsize);
      } else {
        ExtendPastCapacity(old(entries), evicted, items, now, maxsize);
      }
    }
  }
}
