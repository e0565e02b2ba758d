/** The entries of the bounded "LRU" set and the eviction rules shared by both revisions of
    the set: an entry is a value stamped with the whole second at which it was wrapped, and
    an overflowing insertion removes a number of existing entries chosen by stamp. */
module Eviction {
  import opened Results

  /** One element of the set. Two entries are equal when value and stamp are both equal,
      as the wrapper's generated equality compares both fields. */
  datatype Entry<V> = Entry(value: V, accessTime: int)

  function Min(a: int, b: int): int { if a <= b then a else b }

  /** How many existing entries an `add` asks to evict: `len + 1 - maxsize` when the
      insertion would overflow, none otherwise. */
  function AddOverflow(len: nat, maxsize: int): nat
  {
    if len + 1 > maxsize then len + 1 - maxsize else 0
  }

  /** How many existing entries an `extend` of `n` items asks to evict. */
  function ExtendOverflow(len: nat, n: nat, maxsize: int): nat
  {
    if len + n > maxsize then len + n - maxsize else 0
  }

  /** `r` holds the `k` newest entries of `s` (all of `s` when `k` exceeds its size):
      no entry left in `s` is newer than an entry of `r`. Ties are not resolved. */
  predicate NewestSelected<V(==)>(s: set<Entry<V>>, r: set<Entry<V>>, k: nat)
  {
    && r <= s
    && |r| == Min(k, |s|)
    && forall x, y :: x in r && y in s && y !in r ==> y.accessTime <= x.accessTime
  }

  /** `r` holds the `k` oldest entries of `s` (all of `s` when `k` exceeds its size). */
  predicate OldestSelected<V(==)>(s: set<Entry<V>>, r: set<Entry<V>>, k: nat)
  {
    && r <= s
    && |r| == Min(k, |s|)
    && forall x, y :: x in r && y in s && y !in r ==> x.accessTime <= y.accessTime
  }

  /** Every non-empty set of entries has a newest entry. */
  lemma {:induction false} NewestExists<V>(s: set<Entry<V>>)
    requires s != {}
    ensures exists m :: m in s && forall y :: y in s ==> y.accessTime <= m.accessTime
    decreases s
  {
    var x :| x in s;
    if s != {x} {
      var rest := s - {x};
      NewestExists(rest);
      var m :| m in rest && forall y :: y in rest ==> y.accessTime <= m.accessTime;
      if m.accessTime < x.accessTime {
        assert forall y :: y in s ==> y.accessTime <= x.accessTime;
      } else {
        assert forall y :: y in s ==> y.accessTime <= m.accessTime;
      }
    }
  }

  /** Every non-empty set of entries has an oldest entry. */
  lemma {:induction false} OldestExists<V>(s: set<Entry<V>>)
    requires s != {}
    ensures exists m :: m in s && forall y :: y in s ==> m.accessTime <= y.accessTime
    decreases s
  {
    var x :| x in s;
    if s != {x} {
      var rest := s - {x};
      OldestExists(rest);
      var m :| m in rest && forall y :: y in rest ==> m.accessTime <= y.accessTime;
      if x.accessTime < m.accessTime {
        assert forall y :: y in s ==> x.accessTime <= y.accessTime;
      } else {
        assert forall y :: y in s ==> m.accessTime <= y.accessTime;
      }
    }
  }

  /** The head of `sorted(s, key=access_time)[::-1][:k]`: the `k` newest entries, taken one
      newest entry at a time. */
  method SelectNewest<V(==)>(s: set<Entry<V>>, k: nat) returns (r: set<Entry<V>>)
    ensures NewestSelected(s, r, k)
  {
    r := {};
    var rest := s;
    while |r| < k && rest != {}
      invariant r !! rest && r + rest == s
      invariant |r| + |rest| == |s|
      invariant |r| <= k
      invariant forall x, y :: x in r && y in rest ==> y.accessTime <= x.accessTime
      decreases rest
    {
      NewestExists(rest);
      var m :| m in rest && forall y :: y in rest ==> y.accessTime <= m.accessTime;
      r, rest := r + {m}, rest - {m};
    }
  }

  /** The head of `sorted(s, key=access_time)[:k]`: the `k` oldest entries, taken one oldest
      entry at a time. */
  method SelectOldest<V(==)>(s: set<Entry<V>>, k: nat) returns (r: set<Entry<V>>)
    ensures OldestSelected(s, r, k)
  {
    r := {};
    var rest := s;
    while |r| < k && rest != {}
      invariant r !! rest && r + rest == s
      invariant |r| + |rest| == |s|
      invariant |r| <= k
      invariant forall x, y :: x in r && y in rest ==> x.accessTime <= y.accessTime
      decreases rest
    {
      OldestExists(rest);
      var m :| m in rest && forall y :: y in rest ==> m.accessTime <= y.accessTime;
      r, rest := r + {m}, rest - {m};
    }
  }

  /** The entries `{LRUItem(value=x) for x in items}` made at second `now`: one per distinct
      item, so never more than there are items. */
  function Stamped<V(==)>(items: seq<V>, now: int): (s: set<Entry<V>>)
    ensures |s| <= |items|
    ensures forall e :: e in s ==> e.accessTime == now && e.value in items
    ensures forall x :: x in items ==> Entry(x, now) in s
  {
    if items == [] then {}
    else Stamped(items[..|items| - 1], now) + {Entry(items[|items| - 1], now)}
  }

  /** Stamping one more item adds its entry. */
  lemma StampedSnoc<V>(items: seq<V>, x: V, now: int)
    ensures Stamped(items + [x], now) == Stamped(items, now) + {Entry(x, now)}
  {
    assert (items + [x])[..|items|] == items;
  }

  /** A subset as large as the whole set is the whole set. */
  lemma {:induction false} SubsetOfSameSize<V>(r: set<Entry<V>>, s: set<Entry<V>>)
    requires r <= s && |r| == |s|
    ensures r == s
  {
    assert |s - r| == |s| - |r| == 0;
    assert s - r == {};
  }

  /** With `maxsize >= 1`, whatever entries an overflowing `add` evicts, the set it leaves
      after inserting one entry is within capacity, even when it started over-full. */
  lemma AddWithinCapacity<V>(s: set<Entry<V>>, evicted: set<Entry<V>>, e: Entry<V>, maxsize: int)
    requires maxsize >= 1
    requires evicted <= s && |evicted| == Min(AddOverflow(|s|, maxsize), |s|)
    ensures |s - evicted + {e}| <= maxsize
  {
    assert |s - evicted| == |s| - |evicted|;
  }

  /** Once `extend` brings at most `maxsize` items, the set it leaves is within capacity. */
  lemma ExtendWithinCapacity<V>(s: set<Entry<V>>, evicted: set<Entry<V>>, items: seq<V>, now: int, maxsize: int)
    requires |items| <= maxsize
    requires evicted <= s && |evicted| == Min(ExtendOverflow(|s|, |items|, maxsize), |s|)
    ensures |s - evicted + Stamped(items, now)| <= maxsize
  {
    assert |s - evicted| == |s| - |evicted|;
  }

  /** When `extend` brings more than `maxsize` items, every existing entry is evicted and the
      set ends holding exactly the new entries, more than `maxsize` of them when the items are
      distinct. */
  lemma ExtendPastCapacity<V>(s: set<Entry<V>>, evicted: set<Entry<V>>, items: seq<V>, now: int, maxsize: int)
    requires |items| > maxsize
    requires evicted <= s && |evicted| == Min(ExtendOverflow(|s|, |items|, maxsize), |s|)
    ensures evicted == s
    ensures s - evicted + Stamped(items, now) == Stamped(items, now)
  {
    SubsetOfSameSize(evicted, s);
  }

  /** The entries whose value equals `item`. */
  function Matching<V(==)>(s: set<Entry<V>>, item: V): set<Entry<V>>
  {
    set e | e in s && e.value == item
  }

  /** `set.remove(*filter(lambda x: x.value == item, s))`: succeeds only when exactly one
      entry holds `item`, and then removes that entry and nothing else; with no match or with
      several, `set.remove` receives the wrong number of arguments and raises TypeError. */
  function RemoveByValue<V(==)>(s: set<Entry<V>>, item: V): (r: Result<set<Entry<V>>>)
    ensures r.Ok? <==> exists e :: e in s && e.value == item && forall f :: f in s && f.value == item ==> f == e
    ensures r.Ok? ==> |r.value| == |s| - 1
    ensures r.Ok? ==> forall e :: e in r.value ==> e in s && e.value != item
    ensures r.Ok? ==> forall e :: e in s && e.value != item ==> e in r.value
    ensures r.Err? ==> r.error.TypeError?
  {
    var m := Matching(s, item);
    SingleMatch(s, item);
    if |m| == 1 then Ok(s - m) else Err(TypeError("remove"))
  }

  /** Exactly one entry holds `item` precisely when one entry is matched. */
  lemma SingleMatch<V>(s: set<Entry<V>>, item: V)
    ensures |Matching(s, item)| == 1 <==>
            exists e :: e in s && e.value == item && forall f :: f in s && f.value == item ==> f == e
  {
    var m := Matching(s, item);
    if |m| == 1 {
      var e :| e in m;
      assert |m - {e}| == 0;
      forall f | f in s && f.value == item
        ensures f == e
      {
        assert f in m;
        assert f !in m - {e};
      }
    }
    if exists e :: e in s && e.value == item && forall f :: f in s && f.value == item ==> f == e {
      var e :| e in s && e.value == item && forall f :: f in s && f.value == item ==> f == e;
      assert forall f :: f in m <==> f == e;
      assert m == {e};
    }
  }
}
