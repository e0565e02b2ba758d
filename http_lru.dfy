/** phlyght/http.py, first part: the earlier revision of the bounded set of timestamped
    entries, used as the router's cache. An overflowing insertion evicts the OLDEST entries
    (`sorted(...)[:k]` without the reversal of the final revision). The clock,
    `int(time())`, is the parameter `now` of each operation that wraps items. */
module HttpLru {
  import opened Results
  import opened Eviction

  function Max(a: int, b: int): int { if a >= b then a else b }

  /** `items[:m]` with Python's slice semantics: a negative bound counts from the end. */
  function SlicePrefix<V>(items: seq<V>, m: int): (p: seq<V>)
    ensures |p| == if m >= 0 then Min(m, |items|) else Max(0, |items| + m)
    ensures p == items[..|p|]
  {
    if m >= 0 then items[..Min(m, |items|)] else items[..Max(0, |items| + m)]
  }

  class LRU<V(==)> {
    var entries: set<Entry<V>>
    var maxsize: int

    /** `LRU(*items, maxsize=128)`: adds `items[:maxsize]` one by one. With `maxsize >= 0`
        no add starts at capacity, so nothing is evicted; with a negative `maxsize` every
        add evicts all existing entries, leaving only the last item of the slice. */
    constructor (items: seq<V>, now: int, maxsize: int := 128)
      ensures this.maxsize == maxsize
      ensures maxsize >= 0 ==> entries == Stamped(items[..Min(maxsize, |items|)], now)
      ensures maxsize < 0 ==>
                var p := SlicePrefix(items, maxsize);
                entries == if p == [] then {} else {Entry(p[|p| - 1], now)}
    {
      this.maxsize := maxsize;
      entries := {};
      new;
      var p := SlicePrefix(items, maxsize);
      if maxsize >= 0 {
        AddAllBelowCapacity(p, now);
      } else {
        AddAllNegative(p, now);
      }
    }

    /** The constructor's loop when the slice fits: no add evicts anything. */
    method AddAllBelowCapacity(p: seq<V>, now: int)
      requires entries == {} && |p| <= maxsize
      modifies this
      ensures maxsize == old(maxsize) && entries == Stamped(p, now)
    {
      var i := 0;
      while i < |p|
        invariant 0 <= i <= |p|
        invariant maxsize == old(maxsize)
        invariant entries == Stamped(p[..i], now)
      {
        AddNextFitting(p, i, now);
        i := i + 1;
      }
      assert p[..|p|] == p;
    }

    /** One turn of that loop: the next item fits, so its entry is added and nothing is
        evicted. */
    method AddNextFitting(p: seq<V>, i: nat, now: int)
      requires i < |p| <= maxsize && entries == Stamped(p[..i], now)
      modifies this
      ensures maxsize == old(maxsize) && entries == Stamped(p[..i + 1], now)
    {
      ghost var done := p[..i];
      assert p[..i + 1] == done + [p[i]];
      assert |entries| <= |done|;
      AddFitting(p[i], now);
      StampedSnoc(done, p[i], now);
    }

    /** An `add` that fits evicts nothing. */
    method AddFitting(item: V, now: int)
      requires |entries| + 1 <= maxsize
      modifies this
      ensures maxsize == old(maxsize) && entries == old(entries) + {Entry(item, now)}
    {
      var evicted := Add(item, now);
    }

    /** The constructor's loop when `maxsize` is negative: each add evicts everything. */
    method AddAllNegative(p: seq<V>, now: int)
      requires entries == {} && maxsize < 0
      modifies this
      ensures maxsize == old(maxsize)
      ensures entries == if p == [] then {} else {Entry(p[|p| - 1], now)}
    {
      var i := 0;
      while i < |p|
        invariant 0 <= i <= |p|
        invariant maxsize == old(maxsize)
        invariant entries == if i == 0 then {} else {Entry(p[i - 1], now)}
      {
        ghost var before := entries;
        var evicted := Add(p[i], now);
        SubsetOfSameSize(evicted, before);
        i := i + 1;
      }
    }

    /** `add(item)`: when one more entry would overflow, evict the `len + 1 - maxsize`
        oldest entries (never more than there are), then insert the item stamped `now`. */
    method Add(item: V, now: int) returns (ghost evicted: set<Entry<V>>)
      modifies this
      ensures maxsize == old(maxsize)
      ensures OldestSelected(old(entries), evicted, AddOverflow(|old(entries)|, maxsize))
      ensures entries == old(entries) - evicted + {Entry(item, now)}
      ensures |old(entries)| + 1 <= maxsize ==> evicted == {}
      ensures maxsize >= 1 ==> |entries| <= maxsize
    {
      evicted := {};
      if |entries| + 1 > maxsize {
        var stale := SelectOldest(entries, |entries| + 1 - maxsize);
        entries := entries - stale;
        evicted := stale;
      }
      entries := entries + {Entry(item, now)};
      if maxsize >= 1 {
        AddWithinCapacity(old(entries), evicted, Entry(item, now), maxsize);
      }
    }

    /** `pop()`: removes an arbitrary entry and returns None; KeyError on an empty set. */
    method Pop() returns (r: Outcome, ghost popped: set<Entry<V>>)
      modifies this
      ensures maxsize == old(maxsize)
      ensures popped <= old(entries) && entries == old(entries) - popped
      ensures old(entries) == {} ==> r == Fail(KeyError("pop from an empty set"))
      ensures old(entries) != {} ==> r == Pass && |popped| == 1
    {
      if entries == {} {
        return Fail(KeyError("pop from an empty set")), {};
      }
      var e :| e in entries;
      entries := entries - {e};
      return Pass, {e};
    }

    /** `remove(item)`: deletes the one entry holding `item`; TypeError, and no change,
        when no entry or several entries hold it. */
    method Remove(item: V) returns (r: Outcome)
      modifies this
      ensures maxsize == old(maxsize)
      ensures RemoveByValue(old(entries), item).Ok? ==>
                r == Pass && entries == RemoveByValue(old(entries), item).value
      ensures RemoveByValue(old(entries), item).Err? ==>
                r == Fail(RemoveByValue(old(entries), item).error) && entries == old(entries)
    {
      var m := Matching(entries, item);
      if |m| == 1 {
        entries := entries - m;
        return Pass;
      }
      return Fail(TypeError("remove"));
    }

    /** `extend(*items)`: drops the oldest existing entries sized to the total overflow,
        then unions all new entries; the bound holds only while the new items alone fit. */
    method Extend(items: seq<V>, now: int) returns (ghost evicted: set<Entry<V>>)
      modifies this
      ensures maxsize == old(maxsize)
      ensures OldestSelected(old(entries), evicted, ExtendOverflow(|old(entries)|, |items|, maxsize))
      ensures entries == old(entries) - evicted + Stamped(items, now)
      ensures |items| <= maxsize ==> |entries| <= maxsize
      ensures |items| > maxsize ==> entries == Stamped(items, now)
    {
      evicted := {};
      var lenNew := |entries| + |items|;
      if lenNew > maxsize {
        var stale := SelectOldest(entries, lenNew - maxsize);
        entries := entries - stale;
        evicted := stale;
      }
      entries := entries + Stamped(items, now);
      if |items| <= maxsize {
        ExtendWithinCapacity(old(entries), evicted, items, now, maxsize);
      } else {
        ExtendPastCapacity(old(entries), evicted, items, now, maxsize);
      }
    }
  }
}
