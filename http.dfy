/** phlyght/http.py, second part: the router. It keeps the cache of received records (the
    earlier revision of the bounded set), the current subscription task and the bridge
    address, classifies each message of the event stream with `MSG_RE`, adds the records of
    a data frame to the cache, and builds requests through `route`, which checks the bridge
    address with `IP_RE` after resolving the arguments. The event loop, the HTTP client and
    the JSON decoder are not modelled: a task is a value handed in, and decoding is the
    parameter `loads`. */
module Http {
  import opened Results
  import opened Frames
  import opened Json
  import opened Payload
  import opened Eviction
  import HttpLru
  import Api

  /** The heartbeat literal of this revision's message pattern. */
  const Hello := "hi"

  /** `MSG_RE.search(msg)`: a heartbeat exactly for "hi" and a blank line, optionally one
      more newline; else the data frame with the longest '$'-free data; else no match,
      exactly when no data frame is present. */
  function MessageFrame(msg: string): (f: Frame)
    ensures f == Heartbeat <==> msg == "hi\n\n" || msg == "hi\n\n\n"
    ensures f.Data? ==> HasDataFrame(msg, f.id, f.data)
    ensures f.Data? ==> forall d :: HasDataFrame(msg, f.id, d) ==> |d| <= |f.data|
    ensures f == NoMatch <==>
              msg != "hi\n\n" && msg != "hi\n\n\n" && forall id, d :: !HasDataFrame(msg, id, d)
  {
    ClassifyMeaning(Hello, msg);
    Classify(Hello, msg)
  }

  /** The heartbeat of this revision, and the heartbeat of the final revision, which this
      pattern does not recognise. */
  lemma HeartbeatExamples()
    ensures MessageFrame("hi\n\n") == Heartbeat
    ensures MessageFrame(": hi\n\n") == NoMatch
  {
    assert forall id, d :: !HasDataFrame(": hi\n\n", id, d);
  }

  /** What the read loop iterates over for one message: `[]` unless the message is a data
      frame, whose data `loads` decodes; a decoding failure raises ValueError. */
  function PayloadOf(f: Frame, loads: string -> Option<Json>): (r: Result<Json>)
    ensures !f.Data? ==> r == Ok(Arr([]))
    ensures f.Data? ==> (r.Err? <==> loads(f.data).None?)
    ensures f.Data? && r.Ok? ==> r.value == loads(f.data).value
  {
    if !f.Data? then Ok(Arr([]))
    else match loads(f.data)
      case None => Err(ValueError("Expecting value"))
      case Some(p) => Ok(p)
  }

  /** A heartbeat or an unmatched message adds nothing and raises nothing. */
  lemma QuietMessagesAddNothing(msg: string, loads: string -> Option<Json>, tags: set<string>)
    requires !MessageFrame(msg).Data?
    ensures PayloadOf(MessageFrame(msg), loads).Ok?
    ensures Flatten(PayloadOf(MessageFrame(msg), loads).value, tags) == Flattened([], None)
  {
  }

  // ---------------------------------------------------------------------------------
  // The cache after the read loop's inserts.

  /** The cache `after` results from `before` by inserting `added` in order, stamped `now`:
      it holds nothing else, it holds the last record, a positive capacity bounds it, and
      while everything fits nothing was evicted. */
  predicate CacheAfterAdds(before: set<Entry<Resource>>, after: set<Entry<Resource>>, added: seq<Resource>,
                           now: int, maxsize: int): (r: bool)
    ensures r && added != [] ==> after != {}
    ensures r && |before| + |added| <= maxsize ==> before <= after
  {
    && after <= before + Stamped(added, now)
    && (added != [] ==> Entry(added[|added| - 1], now) in after)
    && (added != [] && maxsize >= 1 ==> |after| <= maxsize)
    && (|before| + |added| <= maxsize ==> after == before + Stamped(added, now))
  }

  /** One more `add`, whatever it evicts, keeps the relation. */
  lemma {:induction false} CacheAfterAddsStep(before: set<Entry<Resource>>, mid: set<Entry<Resource>>,
                                              evicted: set<Entry<Resource>>, added: seq<Resource>, x: Resource,
                                              now: int, maxsize: int)
    requires CacheAfterAdds(before, mid, added, now, maxsize)
    requires evicted <= mid && |evicted| == Min(AddOverflow(|mid|, maxsize), |mid|)
    requires |mid| + 1 <= maxsize ==> evicted == {}
    ensures CacheAfterAdds(before, mid - evicted + {Entry(x, now)}, added + [x], now, maxsize)
  {
    StampedSnoc(added, x, now);
    if maxsize >= 1 {
      AddWithinCapacity(mid, evicted, Entry(x, now), maxsize);
    }
    if |before| + |added| + 1 <= maxsize {
      FitsEvictsNothing(before, mid, added, now, maxsize);
    }
    assert (added + [x])[|added + [x]| - 1] == x;
  }

  /** One `add` of this revision: the `len + 1 - maxsize` oldest entries of `before` go
      (none when the insertion fits), then `x` comes in stamped `now`. */
  ghost predicate OneAdd(before: set<Entry<Resource>>, after: set<Entry<Resource>>, x: Resource,
                         now: int, maxsize: int)
  {
    exists evicted :: OldestSelected(before, evicted, AddOverflow(|before|, maxsize))
                      && after == before - evicted + {Entry(x, now)}
  }

  /** All records but the last. */
  function Init(added: seq<Resource>): (r: seq<Resource>)
    requires added != []
    ensures |r| == |added| - 1 && added == r + [added[|added| - 1]]
  {
    added[..|added| - 1]
  }

  /** The cache `after` results from `before` by one `add` per record of `added`, in order. */
  ghost predicate AddsInOrder(before: set<Entry<Resource>>, after: set<Entry<Resource>>, added: seq<Resource>,
                              now: int, maxsize: int)
    decreases |added|
  {
    if added == [] then after == before
    else exists mid :: AddsInOrder(before, mid, Init(added), now, maxsize)
                       && OneAdd(mid, after, added[|added| - 1], now, maxsize)
  }

  /** The `add` of the record at index `i`, evicting `evicted`, extends the chain of the
      records before it. */
  lemma AddsAt(before: set<Entry<Resource>>, mid: set<Entry<Resource>>, after: set<Entry<Resource>>,
               evicted: set<Entry<Resource>>, records: seq<Resource>, i: nat, now: int, maxsize: int)
    requires i < |records| && AddsInOrder(before, mid, records[..i], now, maxsize)
    requires OldestSelected(mid, evicted, AddOverflow(|mid|, maxsize))
    requires after == mid - evicted + {Entry(records[i], now)}
    ensures AddsInOrder(before, after, records[..i + 1], now, maxsize)
  {
    var done := records[..i + 1];
    assert Init(done) == records[..i] && done[i] == records[i];
    assert OneAdd(mid, after, done[i], now, maxsize);
  }

  /** A chain of oldest-first adds satisfies the summary relation `CacheAfterAdds`. */
  lemma {:induction false} AddsInOrderCache(before: set<Entry<Resource>>, after: set<Entry<Resource>>,
                                            added: seq<Resource>, now: int, maxsize: int)
    requires AddsInOrder(before, after, added, now, maxsize)
    ensures CacheAfterAdds(before, after, added, now, maxsize)
    decreases |added|
  {
    if added == [] {
      assert Stamped<Resource>([], now) == {};
    } else {
      var pre, x := Init(added), added[|added| - 1];
      var mid :| AddsInOrder(before, mid, pre, now, maxsize) && OneAdd(mid, after, x, now, maxsize);
      var evicted :| OldestSelected(mid, evicted, AddOverflow(|mid|, maxsize)) && after == mid - evicted + {Entry(x, now)};
      AddsInOrderCache(before, mid, pre, now, maxsize);
      CacheAfterAddsStep(before, mid, evicted, pre, x, now, maxsize);
    }
  }

  /** An `add` that fits evicts nothing. */
  lemma OneAddFits(before: set<Entry<Resource>>, after: set<Entry<Resource>>, x: Resource, now: int, maxsize: int)
    requires OneAdd(before, after, x, now, maxsize) && |before| + 1 <= maxsize
    ensures after == before + {Entry(x, now)}
  {
  }

  /** Of two entries with different stamps, the oldest one is the older. */
  lemma OldestOfTwo(x: Entry<Resource>, y: Entry<Resource>, evicted: set<Entry<Resource>>)
    requires x.accessTime < y.accessTime && OldestSelected({x, y}, evicted, 1)
    ensures evicted == {x}
  {
    assert |{x, y}| == 2;
    assert evicted == {x} by {
      assert {x} <= evicted && |evicted| == 1;
      SubsetOfSameSize({x}, evicted);
    }
  }

  /** With capacity two, adding `b` and then `c` to a cache holding `a` stamped earlier
      evicts `a`, the oldest entry: the cache ends as `{b, c}`. */
  lemma OldestFirstExample(a: Resource, b: Resource, c: Resource, after: set<Entry<Resource>>)
    requires AddsInOrder({Entry(a, 0)}, after, [b, c], 5, 2)
    ensures after == {Entry(b, 5), Entry(c, 5)}
  {
    assert Init([b, c]) == [b] && Init([b]) == [];
    var mid :| AddsInOrder({Entry(a, 0)}, mid, [b], 5, 2) && OneAdd(mid, after, c, 5, 2);
    var start :| AddsInOrder({Entry(a, 0)}, start, [], 5, 2) && OneAdd(start, mid, b, 5, 2);
    OneAddFits(start, mid, b, 5, 2);
    assert mid == {Entry(a, 0), Entry(b, 5)};
    var e2 :| OldestSelected(mid, e2, AddOverflow(|mid|, 2)) && after == mid - e2 + {Entry(c, 5)};
    OldestOfTwo(Entry(a, 0), Entry(b, 5), e2);
  }

  /** While everything fits, the cache is exactly what was inserted and has room for one
      more. */
  lemma {:induction false} FitsEvictsNothing(before: set<Entry<Resource>>, mid: set<Entry<Resource>>,
                                             added: seq<Resource>, now: int, maxsize: int)
    requires CacheAfterAdds(before, mid, added, now, maxsize)
    requires |before| + |added| + 1 <= maxsize
    ensures mid == before + Stamped(added, now) && |mid| + 1 <= maxsize
  {
    assert |before + Stamped(added, now)| <= |before| + |Stamped(added, now)|;
  }

  // ---------------------------------------------------------------------------------
  // IP_RE = (?=(?:(?<=[^0-9])|)((?:[0-9]{,3}\.){3}[0-9]{,3}))\1 and `search`.

  /** `s[lo..hi]` is a group of at most three digits, possibly empty. */
  predicate Octet(s: string, lo: nat, hi: nat)
    requires lo <= hi <= |s|
  {
    hi - lo <= 3 && forall k | lo <= k < hi :: IsDigit(s[k])
  }

  /** `s[i..j]` is four groups of at most three digits with dots at `a`, `b` and `c`. */
  predicate QuadSplit(s: string, i: nat, j: nat, a: nat, b: nat, c: nat)
  {
    && i <= a < b < c < j <= |s|
    && s[a] == '.' && s[b] == '.' && s[c] == '.'
    && Octet(s, i, a) && Octet(s, a + 1, b) && Octet(s, b + 1, c) && Octet(s, c + 1, j)
  }

  /** `s[i..j]` is text the group of IP_RE can match: four groups of at most three digits
      joined by dots. */
  ghost predicate QuadBetween(s: string, i: nat, j: nat)
  {
    exists a: nat, b: nat, c: nat :: QuadSplit(s, i, j, a, b, c)
  }

  /** The whole of `t` is a dotted quad. */
  ghost predicate IsQuad(t: string)
  {
    QuadBetween(t, 0, |t|)
  }

  /** A quad between two positions is a quad once cut out. */
  lemma QuadSlice(s: string, i: nat, j: nat)
    requires QuadBetween(s, i, j)
    ensures IsQuad(s[i..j])
  {
    var a: nat, b: nat, c: nat :| QuadSplit(s, i, j, a, b, c);
    var t := s[i..j];
    assert forall k | 0 <= k < j - i :: t[k] == s[i + k];
    assert QuadSplit(t, 0, |t|, a - i, b - i, c - i);
  }

  /** No quad of `s` starts before position `i`. */
  ghost predicate NoQuadBefore(s: string, i: nat)
  {
    forall k, j | 0 <= k < i && k <= j :: !QuadBetween(s, k, j)
  }

  /** `s[i..e]` is the first quad of `s`, taken at its longest. */
  ghost predicate FirstLongestQuad(s: string, i: nat, e: nat)
  {
    && QuadBetween(s, i, e) && NoQuadBefore(s, i)
    && forall j | e < j :: !QuadBetween(s, i, j)
  }

  /** `s[i..e]` holds only digits and dots. */
  predicate DigitsAndDots(s: string, i: nat, e: nat)
    requires i <= e <= |s|
  {
    forall k | i <= k < e :: IsDigit(s[k]) || s[k] == '.'
  }

  /** The group tried at `i`: each of the first three digit runs must be followed by '.',
      so it is the whole run, at most three digits; the last takes up to three digits. The
      lookbehind alternation has an empty branch, so it never stops a match. */
  function QuadAt(s: string, i: nat): (r: Option<nat>)
    requires i <= |s|
    ensures r.Some? ==> i + 3 <= r.value <= |s| && DigitsAndDots(s, i, r.value)
  {
    var a := DigitsEnd(s, i);
    if a - i > 3 || a == |s| || s[a] != '.' then None
    else
      var b := DigitsEnd(s, a + 1);
      if b - a - 1 > 3 || b == |s| || s[b] != '.' then None
      else
        var c := DigitsEnd(s, b + 1);
        if c - b - 1 > 3 || c == |s| || s[c] != '.' then None
        else
          var d := DigitsEnd(s, c + 1);
          Some(Min(d, c + 4))
  }

  /** What `QuadAt` returns is a quad. */
  lemma {:induction false} QuadAtSound(s: string, i: nat)
    requires i <= |s| && QuadAt(s, i).Some?
    ensures QuadBetween(s, i, QuadAt(s, i).value)
  {
    var a := DigitsEnd(s, i);
    var b := DigitsEnd(s, a + 1);
    var c := DigitsEnd(s, b + 1);
    assert QuadSplit(s, i, QuadAt(s, i).value, a, b, c);
  }

  /** A digit run that stops at a non-digit ends there. */
  lemma {:induction false} RunEnd(s: string, lo: nat, hi: nat)
    requires lo <= hi < |s| && !IsDigit(s[hi])
    requires forall k | lo <= k < hi :: IsDigit(s[k])
    ensures DigitsEnd(s, lo) == hi
    decreases hi - lo
  {
    if lo < hi {
      RunEnd(s, lo + 1, hi);
    }
  }

  /** `QuadAt` from the four runs it looks at. */
  lemma {:induction false} QuadAtFromRuns(s: string, i: nat, a: nat, b: nat, c: nat, j: nat)
    requires i <= a < b < c < j <= |s|
    requires DigitsEnd(s, i) == a && a - i <= 3 && s[a] == '.'
    requires DigitsEnd(s, a + 1) == b && b - a - 1 <= 3 && s[b] == '.'
    requires DigitsEnd(s, b + 1) == c && c - b - 1 <= 3 && s[c] == '.'
    requires j <= DigitsEnd(s, c + 1) && j - c - 1 <= 3
    ensures QuadAt(s, i).Some? && j <= QuadAt(s, i).value
  {
  }

  /** Every quad starting at `i` is found there, and the one found is the longest. */
  lemma {:induction false} QuadAtComplete(s: string, i: nat, j: nat)
    requires QuadBetween(s, i, j)
    ensures i <= |s| && QuadAt(s, i).Some? && j <= QuadAt(s, i).value
  {
    var a: nat, b: nat, c: nat :| QuadSplit(s, i, j, a, b, c);
    RunEnd(s, i, a);
    RunEnd(s, a + 1, b);
    RunEnd(s, b + 1, c);
    QuadAtFromRuns(s, i, a, b, c, j);
  }

  /** `IP_RE.search(s[i:])`: the first position where the group matches. */
  function SearchQuad(s: string, i: nat): (r: Option<(nat, nat)>)
    requires i <= |s|
    ensures r.Some? ==> i <= r.value.0 <= |s| && QuadAt(s, r.value.0) == Some(r.value.1)
    ensures r.Some? ==> forall k | i <= k < r.value.0 :: QuadAt(s, k).None?
    ensures r.None? ==> forall k | i <= k <= |s| :: QuadAt(s, k).None?
    decreases |s| - i
  {
    match QuadAt(s, i)
    case Some(e) => Some((i, e))
    case None => if i == |s| then None else SearchQuad(s, i + 1)
  }

  /** The search finds nothing only when the text holds no quad. */
  lemma SearchQuadNone(s: string)
    requires SearchQuad(s, 0).None?
    ensures NoQuadBefore(s, |s| + 1)
  {
    forall k, j | 0 <= k < |s| + 1 && k <= j ensures !QuadBetween(s, k, j) {
      if QuadBetween(s, k, j) { QuadAtComplete(s, k, j); }
    }
  }

  /** What the search finds is the first quad, at its longest. */
  lemma SearchQuadSome(s: string)
    requires SearchQuad(s, 0).Some?
    ensures FirstLongestQuad(s, SearchQuad(s, 0).value.0, SearchQuad(s, 0).value.1)
  {
    var (i, e) := SearchQuad(s, 0).value;
    QuadAtSound(s, i);
    forall k, j | 0 <= k < i && k <= j ensures !QuadBetween(s, k, j) {
      if QuadBetween(s, k, j) { QuadAtComplete(s, k, j); }
    }
    forall j | e < j ensures !QuadBetween(s, i, j) {
      if QuadBetween(s, i, j) { QuadAtComplete(s, i, j); }
    }
  }

  /** The bridge-address check of `route`: the host is the first dotted quad of
      `self._bridge_ip`, taken at its longest; without one the call raises ValueError. */
  function BridgeHost(ip: string): (r: Result<string>)
    ensures r.Err? <==> NoQuadBefore(ip, |ip| + 1)
    ensures r.Err? ==> r.error == ValueError("Invalid bridge ip " + ip)
    ensures r.Ok? ==> IsQuad(r.value)
    ensures r.Ok? ==> exists i: nat, e: nat :: FirstLongestQuad(ip, i, e) && e <= |ip| && r.value == ip[i..e]
  {
    match SearchQuad(ip, 0)
    case None =>
      SearchQuadNone(ip);
      Err(ValueError("Invalid bridge ip " + ip))
    case Some((i, e)) =>
      SearchQuadSome(ip);
      QuadSlice(ip, i, e);
      Ok(ip[i..e])
  }

  /** An address whose first run has four digits. */
  const LongRun := "1234.5.6.7"

  lemma LongRunRuns()
    ensures DigitsEnd(LongRun, 0) == 4 && DigitsEnd(LongRun, 1) == 4 && LongRun[4] == '.'
    ensures DigitsEnd(LongRun, 5) == 6 && LongRun[6] == '.'
    ensures DigitsEnd(LongRun, 7) == 8 && LongRun[8] == '.'
    ensures DigitsEnd(LongRun, 9) == 10
  {
  }

  /** The lookbehind does not require a non-digit before the quad: in "1234.5.6.7" the
      search skips the first digit and the host is "234.5.6.7". An empty address raises. */
  lemma BridgeHostExamples()
    ensures BridgeHost(LongRun) == Ok("234.5.6.7")
    ensures BridgeHost("") == Err(ValueError("Invalid bridge ip "))
  {
    LongRunRuns();
    assert QuadAt(LongRun, 0) == None;
    assert QuadAt(LongRun, 1) == Some(10);
    assert SearchQuad(LongRun, 0) == Some((1, 10));
    assert LongRun[1..10] == "234.5.6.7";
    assert QuadAt("", 0) == None;
  }

  // ---------------------------------------------------------------------------------
  // The router.

  /** A subscription task as far as `subscribe` looks at it. */
  datatype Task = Task(id: nat, done: bool)

  /** What `route` passes on to the HTTP client besides method and body content. */
  datatype HttpRequest<T> = HttpRequest(host: string, args: Api.Request<T>, headers: Option<T>)

  class Router {
    var cache: HttpLru.LRU<Resource>
    var subscription: Option<Task>
    var bridgeIp: string

    /** `Router(hue_api_key, bridge_ip=None, max_cache_size=512)`: no subscription, an empty
        cache of the given capacity, and the address `bridge_ip or ""`. */
    constructor (bridgeIp: Option<string>, maxCacheSize: int := 512)
      ensures this.bridgeIp == if bridgeIp.Some? then bridgeIp.value else ""
      ensures subscription == None
      ensures fresh(cache) && cache.entries == {} && cache.maxsize == maxCacheSize
    {
      this.bridgeIp := if bridgeIp.Some? then bridgeIp.value else "";
      subscription := None;
      cache := new HttpLru.LRU([], 0, maxCacheSize);
    }

    /** `subscribe()`: starts `next` only when there is no subscription or the
        current one is done; otherwise nothing changes. */
    method Subscribe(next: Task) returns (started: bool)
      modifies this
      ensures started <==> old(subscription).None? || old(subscription).value.done
      ensures subscription == if started then Some(next) else old(subscription)
      ensures cache == old(cache) && bridgeIp == old(bridgeIp)
    {
      started := subscription.None? || subscription.value.done;
      if started {
        subscription := Some(next);
      }
    }

    /** The inner statement of the read loop, `self.cache.add(...)`, for each record in
        order, stamped `now`: one oldest-first `add` per record. */
    method AddAll(records: seq<Resource>, now: int)
      modifies cache
      ensures cache.maxsize == old(cache.maxsize)
      ensures AddsInOrder(old(cache.entries), cache.entries, records, now, cache.maxsize)
    {
      ghost var before := cache.entries;
      var i := 0;
      while i < |records|
        invariant 0 <= i <= |records|
        invariant cache.maxsize == old(cache.maxsize)
        invariant AddsInOrder(before, cache.entries, records[..i], now, cache.maxsize)
      {
        AddStep(before, records, i, now);
        i := i + 1;
      }
      assert records[..|records|] == records;
    }

    /** One `add` of the read loop, for the record at index `i`, extends the chain by that
        record. */
    method AddStep(ghost before: set<Entry<Resource>>, records: seq<Resource>, i: nat, now: int)
      requires i < |records| && AddsInOrder(before, cache.entries, records[..i], now, cache.maxsize)
      modifies cache
      ensures cache.maxsize == old(cache.maxsize)
      ensures AddsInOrder(before, cache.entries, records[..i + 1], now, cache.maxsize)
    {
      ghost var mid := cache.entries;
      var evicted := cache.Add(records[i], now);
      AddsAt(before, mid, cache.entries, evicted, records, i, now, cache.maxsize);
    }

    /** One message of the read loop: classify it, decode a data frame's data with `loads`,
        then add the records of the payload to the cache one `add` at a time, in event order
        and then object order, stamped `now`. The first exception ends the loop after the
        records before it were added; a heartbeat or an unmatched message changes nothing. */
    method HandleMessage(msg: string, loads: string -> Option<Json>, tags: set<string>, now: int)
      returns (r: Outcome, ghost added: seq<Resource>)
      modifies cache
      ensures cache.maxsize == old(cache.maxsize)
      ensures PayloadOf(MessageFrame(msg), loads).Err? ==>
                r == Fail(PayloadOf(MessageFrame(msg), loads).error) && added == []
      ensures PayloadOf(MessageFrame(msg), loads).Ok? ==>
                var f := Flatten(PayloadOf(MessageFrame(msg), loads).value, tags);
                && added == f.records
                && r == (if f.error.None? then Pass else Fail(f.error.value))
      ensures AddsInOrder(old(cache.entries), cache.entries, added, now, cache.maxsize)
      ensures CacheAfterAdds(old(cache.entries), cache.entries, added, now, cache.maxsize)
    {
      var payload := PayloadOf(MessageFrame(msg), loads);
      if payload.Err? {
        assert Stamped<Resource>([], now) == {};
        return Fail(payload.error), [];
      }
      var f := Flatten(payload.value, tags);
      AddAll(f.records, now);
      AddsInOrderCache(old(cache.entries), cache.entries, f.records, now, cache.maxsize);
      added := f.records;
      r := if f.error.None? then Pass else Fail(f.error.value);
    }

    /** `route`'s wrapper in this revision: pops "headers" from the keyword arguments,
        resolves the arguments as in phlyght/api.py, and only then checks the bridge
        address. */
    method Route<T>(sig: seq<Api.Param>, endpoint: string, kwargs: map<string, T>, params: map<string, T>,
                    data: map<string, T>, convert: (string, T) -> T, toStr: T -> T, truthy: T -> bool)
      returns (r: Result<HttpRequest<T>>)
      ensures var args := Api.RouteArgs(sig, endpoint, kwargs - {"headers"}, params, data, convert, toStr, truthy);
              && (args.Err? ==> r == Err(args.error))
              && (args.Ok? && BridgeHost(bridgeIp).Err? ==> r == Err(BridgeHost(bridgeIp).error))
              && (args.Ok? && BridgeHost(bridgeIp).Ok? ==>
                    r == Ok(HttpRequest(BridgeHost(bridgeIp).value, args.value,
                                        if "headers" in kwargs then Some(kwargs["headers"]) else None)))
    {
      var headers: Option<T> := if "headers" in kwargs then Some(kwargs["headers"]) else None;
      var kw := kwargs - {"headers"};
      var args := Api.Resolve(sig, endpoint, kw, params, data, convert, toStr, truthy);
      if args.Err? {
        return Err(args.error);
      }
      var host := BridgeHost(bridgeIp);
      if host.Err? {
        return Err(host.error);
      }
      return Ok(HttpRequest(host.value, args.value, headers));
    }
  }
}
