/** phlyght/http.py, the read loop of `Router._subscribe`: a decoded payload is a list of
    events, each event's "data" a list of objects, and each object becomes one record of the
    model class its "type" names in TYPE_CACHE. The loop stops at the first exception, after
    the records before it have been added. The table TYPE_CACHE is the set `tags` of type
    names it holds; building a record from an object's fields is not validated here. */
module Payload {
  import opened Results
  import opened Json

  /** The record `TYPE_CACHE[tag](**ob)`: the class named by `tag`, built from `ob`. */
  datatype Resource = Resource(tag: string, fields: Json)

  /** The records the loop adds, in order, and the exception that stopped it, if any. */
  datatype Flattened = Flattened(records: seq<Resource>, error: Option<Exception>)

  /** Every record names a class of the table and was built from a dict. */
  predicate Known(records: seq<Resource>, tags: set<string>)
  {
    forall k | 0 <= k < |records| :: records[k].tag in tags && records[k].fields.Obj?
  }

  /** `TYPE_CACHE[t]`: a string key names a class or raises KeyError; a list or dict key is
      unhashable (TypeError); None, booleans and numbers are hashable but absent (KeyError). */
  function TypeTag(t: Json, tags: set<string>): (r: Result<string>)
    ensures r.Ok? <==> t.Str? && t.s in tags
    ensures r.Ok? ==> r.value == t.s
    ensures t.Str? && t.s !in tags ==> r == Err(KeyError(t.s))
    ensures (t.Arr? || t.Obj?) ==> r.Err? && r.error.TypeError?
    ensures (t.Null? || t.Bool? || t.Num?) ==> r.Err? && r.error.KeyError?
  {
    match t
    case Str(s) => if s in tags then Ok(s) else Err(KeyError(s))
    case Arr(_) => Err(TypeError("unhashable type: 'list'"))
    case Obj(_) => Err(TypeError("unhashable type: 'dict'"))
    case Null => Err(KeyError("None"))
    case Bool(b) => Err(KeyError(if b then "True" else "False"))
    case Num(_) => Err(KeyError("<number>"))
  }

  /** `TYPE_CACHE[ob["type"]](**ob)` for one object: one record, or the exception raised
      by the subscript or by the table lookup. */
  function Record(ob: Json, tags: set<string>): (f: Flattened)
    ensures f.error.None? <==> ob.Obj? && Subscript(ob, "type").Ok? && TypeTag(Subscript(ob, "type").value, tags).Ok?
    ensures f.error.None? ==> f.records == [Resource(Subscript(ob, "type").value.s, ob)]
    ensures f.error.Some? ==> f.records == []
    ensures Known(f.records, tags)
  {
    match Subscript(ob, "type")
    case Err(e) => Flattened([], Some(e))
    case Ok(t) =>
      match TypeTag(t, tags)
      case Err(e) => Flattened([], Some(e))
      case Ok(tag) => Flattened([Resource(tag, ob)], None)
  }

  /** Running one more piece of the loop after `pre`: nothing more once `pre` has raised. */
  function Then(pre: Flattened, next: Flattened): Flattened
  {
    if pre.error.Some? then pre else Flattened(pre.records + next.records, next.error)
  }

  /** `for ob in event["data"]: ...` over the objects `obs`. */
  function ObjectRecords(obs: seq<Json>, tags: set<string>): (f: Flattened)
    ensures Known(f.records, tags)
    ensures |f.records| <= |obs|
  {
    if obs == [] then Flattened([], None)
    else Then(ObjectRecords(obs[..|obs| - 1], tags), Record(obs[|obs| - 1], tags))
  }

  /** The inner loop for one event: `event["data"]` must be present and iterable. */
  function EventRecords(event: Json, tags: set<string>): (f: Flattened)
    ensures Known(f.records, tags)
  {
    match Subscript(event, "data")
    case Err(e) => Flattened([], Some(e))
    case Ok(d) =>
      match Elements(d)
      case Err(e) => Flattened([], Some(e))
      case Ok(obs) => ObjectRecords(obs, tags)
  }

  /** `for event in payload: ...` over the events `events`. */
  function EventsRecords(events: seq<Json>, tags: set<string>): (f: Flattened)
    ensures Known(f.records, tags)
  {
    if events == [] then Flattened([], None)
    else Then(EventsRecords(events[..|events| - 1], tags), EventRecords(events[|events| - 1], tags))
  }

  /** The whole loop over a decoded payload. */
  function Flatten(payload: Json, tags: set<string>): (f: Flattened)
    ensures Known(f.records, tags)
  {
    match Elements(payload)
    case Err(e) => Flattened([], Some(e))
    case Ok(events) => EventsRecords(events, tags)
  }

  // ---------------------------------------------------------------------------------
  // The payloads the bridge sends: a list of event dicts, each with a "data" list of
  // dicts that carry a string "type".

  predicate ShapedObject(ob: Json)
  {
    ob.Obj? && Lookup(ob.members, "type").Some? && Lookup(ob.members, "type").value.Str?
  }

  predicate ShapedEvent(event: Json)
  {
    && event.Obj? && Lookup(event.members, "data").Some?
    && Lookup(event.members, "data").value.Arr?
    && forall k | 0 <= k < |Lookup(event.members, "data").value.items| ::
         ShapedObject(Lookup(event.members, "data").value.items[k])
  }

  predicate ShapedPayload(payload: Json)
  {
    payload.Arr? && forall k | 0 <= k < |payload.items| :: ShapedEvent(payload.items[k])
  }

  /** The record each shaped object stands for, whether or not the table knows its type. */
  function ObjectResources(obs: seq<Json>): seq<Resource>
    requires forall k | 0 <= k < |obs| :: ShapedObject(obs[k])
  {
    if obs == [] then []
    else
      var ob := obs[|obs| - 1];
      assert ShapedObject(ob);
      assert forall k | 0 <= k < |obs| - 1 :: obs[..|obs| - 1][k] == obs[k];
      ObjectResources(obs[..|obs| - 1]) + [Resource(Lookup(ob.members, "type").value.s, ob)]
  }

  /** Event by event, then object by object within an event. */
  function EventResources(events: seq<Json>): seq<Resource>
    requires forall k | 0 <= k < |events| :: ShapedEvent(events[k])
  {
    if events == [] then []
    else
      var ev := events[|events| - 1];
      assert ShapedEvent(ev);
      assert forall k | 0 <= k < |events| - 1 :: events[..|events| - 1][k] == events[k];
      EventResources(events[..|events| - 1]) + ObjectResources(Lookup(ev.members, "data").value.items)
  }

  /** The position of the first record whose type the table lacks (`|rs|` when none). */
  function FirstUnknown(rs: seq<Resource>, tags: set<string>): (k: nat)
    ensures k <= |rs|
    ensures forall j | 0 <= j < k :: rs[j].tag in tags
    ensures k < |rs| ==> rs[k].tag !in tags
  {
    if rs == [] then 0
    else
      var k := FirstUnknown(rs[..|rs| - 1], tags);
      if k < |rs| - 1 then k
      else if rs[|rs| - 1].tag in tags then |rs|
      else |rs| - 1
  }

  /** What the loop does with records `rs` in order: adds those before the first unknown
      type, then raises KeyError naming that type. */
  function UpToUnknown(rs: seq<Resource>, tags: set<string>): Flattened
  {
    var k := FirstUnknown(rs, tags);
    Flattened(rs[..k], if k < |rs| then Some(KeyError(rs[k].tag)) else None)
  }

  /** The first unknown position is the only one with its two properties. */
  lemma {:induction false} FirstUnknownUnique(rs: seq<Resource>, tags: set<string>, k: nat)
    requires k <= |rs|
    requires forall j | 0 <= j < k :: rs[j].tag in tags
    requires k < |rs| ==> rs[k].tag !in tags
    ensures FirstUnknown(rs, tags) == k
  {
  }

  /** Running the records `a` and then the records `b` is running `a + b`. */
  lemma {:induction false} ThenUpToUnknown(a: seq<Resource>, b: seq<Resource>, tags: set<string>)
    ensures Then(UpToUnknown(a, tags), UpToUnknown(b, tags)) == UpToUnknown(a + b, tags)
  {
    var ka, kb := FirstUnknown(a, tags), FirstUnknown(b, tags);
    if ka < |a| {
      FirstUnknownUnique(a + b, tags, ka);
      assert (a + b)[..ka] == a[..ka];
    } else {
      assert forall j | 0 <= j < |a| + kb :: (a + b)[j].tag in tags by {
        forall j | 0 <= j < |a| + kb ensures (a + b)[j].tag in tags {
          if j >= |a| { assert (a + b)[j] == b[j - |a|]; }
        }
      }
      if kb < |b| {
        assert (a + b)[|a| + kb] == b[kb];
      }
      FirstUnknownUnique(a + b, tags, |a| + kb);
      assert (a + b)[..|a| + kb] == a + b[..kb];
      assert a[..ka] == a;
    }
  }

  /** The objects of one event's list, when shaped, add records up to the first unknown
      type. */
  lemma {:induction false} ObjectRecordsShaped(obs: seq<Json>, tags: set<string>)
    requires forall k | 0 <= k < |obs| :: ShapedObject(obs[k])
    ensures ObjectRecords(obs, tags) == UpToUnknown(ObjectResources(obs), tags)
  {
    if obs != [] {
      var pre, ob := obs[..|obs| - 1], obs[|obs| - 1];
      ObjectRecordsShaped(pre, tags);
      var r := Resource(Lookup(ob.members, "type").value.s, ob);
      if r.tag in tags {
        FirstUnknownUnique([r], tags, 1);
      } else {
        FirstUnknownUnique([r], tags, 0);
      }
      assert Record(ob, tags) == UpToUnknown([r], tags);
      ThenUpToUnknown(ObjectResources(pre), [r], tags);
    }
  }

  /** Shaped events add records up to the first unknown type, event by event. */
  lemma {:induction false} EventsRecordsShaped(events: seq<Json>, tags: set<string>)
    requires forall k | 0 <= k < |events| :: ShapedEvent(events[k])
    ensures EventsRecords(events, tags) == UpToUnknown(EventResources(events), tags)
  {
    if events != [] {
      var pre, ev := events[..|events| - 1], events[|events| - 1];
      EventsRecordsShaped(pre, tags);
      var obs := Lookup(ev.members, "data").value.items;
      ObjectRecordsShaped(obs, tags);
      assert EventRecords(ev, tags) == ObjectRecords(obs, tags);
      ThenUpToUnknown(EventResources(pre), ObjectResources(obs), tags);
    }
  }

  /** On a payload of the bridge's shape the loop adds one record per object, in event
      order and then object order, up to the first object whose type TYPE_CACHE lacks,
      and there raises KeyError with that type; when all types are known it adds them all
      and raises nothing. */
  lemma FlattenShaped(payload: Json, tags: set<string>)
    requires ShapedPayload(payload)
    ensures var rs := EventResources(payload.items);
            var k := FirstUnknown(rs, tags);
            && Flatten(payload, tags).records == rs[..k]
            && (k < |rs| ==> Flatten(payload, tags).error == Some(KeyError(rs[k].tag)))
            && (k == |rs| ==> Flatten(payload, tags).error == None)
  {
    EventsRecordsShaped(payload.items, tags);
  }

  /** Every event a string yields is a one-character string, which cannot be subscripted
      by "data": the first one raises TypeError before any record is added. */
  lemma {:induction false} StringEventsRaise(events: seq<Json>, tags: set<string>)
    requires forall k | 0 <= k < |events| :: events[k].Str?
    ensures events == [] ==> EventsRecords(events, tags) == Flattened([], None)
    ensures events != [] ==> EventsRecords(events, tags) == Flattened([], Some(TypeError("string indices must be integers")))
  {
    if |events| > 1 {
      StringEventsRaise(events[..|events| - 1], tags);
    }
  }

  /** A payload that is not a list: a scalar is not iterable, an empty string or dict
      yields no event, and a non-empty string or dict yields strings, which raise
      TypeError at `event["data"]`. Either way no record is added. */
  lemma FlattenNonList(payload: Json, tags: set<string>)
    requires !payload.Arr?
    ensures Flatten(payload, tags).records == []
    ensures (payload.Null? || payload.Bool? || payload.Num?) ==> Flatten(payload, tags).error.Some?
    ensures (payload.Str? && payload.s != []) || (payload.Obj? && payload.members != []) ==>
              Flatten(payload, tags).error == Some(TypeError("string indices must be integers"))
    ensures payload == Str([]) || payload == Obj([]) ==> Flatten(payload, tags).error == None
  {
    if payload.Str? || payload.Obj? {
      StringEventsRaise(Elements(payload).value, tags);
    }
  }
}
