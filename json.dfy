/** A decoded JSON value, as `json.loads` returns it, and the two Python operations the read
    loop applies to such values: iterating over one (`for x in v`) and subscripting one
    with a string key (`v["data"]`). Only the kind of a number matters here, so numbers are
    represented by integers. */
module Json {
  import opened Results

  /** An object is a dict: its members in the order of the decoded text. */
  datatype Json =
    | Null
    | Bool(b: bool)
    | Num(n: int)
    | Str(s: string)
    | Arr(items: seq<Json>)
    | Obj(members: seq<(string, Json)>)

  /** `d[key]` on a decoded dict: the value of the last member named `key`, since the
      decoder keeps the last value of a repeated key. */
  function Lookup(members: seq<(string, Json)>, key: string): (r: Option<Json>)
    ensures r.Some? <==> exists i | 0 <= i < |members| :: members[i].0 == key
    ensures r.Some? ==> exists i | 0 <= i < |members| ::
              members[i] == (key, r.value) && forall j | i < j < |members| :: members[j].0 != key
    decreases |members|
  {
    if members == [] then None
    else if members[|members| - 1].0 == key then Some(members[|members| - 1].1)
    else
      var init, last := members[..|members| - 1], members[|members| - 1];
      var r := Lookup(init, key);
      LookupPastLast(init, last, key, r);
      assert init + [last] == members;
      r
  }

  /** A last member with another key leaves the lookup as it was. */
  lemma LookupPastLast(init: seq<(string, Json)>, last: (string, Json), key: string, r: Option<Json>)
    requires last.0 != key
    requires r.Some? <==> exists i | 0 <= i < |init| :: init[i].0 == key
    requires r.Some? ==> exists i | 0 <= i < |init| ::
               init[i] == (key, r.value) && forall j | i < j < |init| :: init[j].0 != key
    ensures var members := init + [last];
            && (r.Some? <==> exists i | 0 <= i < |members| :: members[i].0 == key)
            && (r.Some? ==> exists i | 0 <= i < |members| ::
                  members[i] == (key, r.value) && forall j | i < j < |members| :: members[j].0 != key)
  {
    var members := init + [last];
    assert forall i | 0 <= i < |init| :: members[i] == init[i];
    if r.Some? {
      var i :| 0 <= i < |init| && init[i] == (key, r.value) && forall j | i < j < |init| :: init[j].0 != key;
      assert members[i] == (key, r.value);
    }
  }

  /** `for x in v`: the items of a list, the one-character strings of a string, the keys
      of a dict; numbers, booleans and None are not iterable. */
  function Elements(v: Json): (r: Result<seq<Json>>)
    ensures r.Err? <==> v.Null? || v.Bool? || v.Num?
    ensures r.Err? ==> r.error.TypeError?
    ensures v.Arr? ==> r == Ok(v.items)
    ensures v.Str? ==> r.Ok? && |r.value| == |v.s| && forall k | 0 <= k < |v.s| :: r.value[k] == Str([v.s[k]])
    ensures v.Obj? ==> r.Ok? && |r.value| == |v.members| && forall k | 0 <= k < |v.members| :: r.value[k] == Str(v.members[k].0)
  {
    match v
    case Null => Err(TypeError("'NoneType' object is not iterable"))
    case Bool(_) => Err(TypeError("'bool' object is not iterable"))
    case Num(_) => Err(TypeError("'int' object is not iterable"))
    case Str(s) => Ok(seq(|s|, k requires 0 <= k < |s| => Str([s[k]])))
    case Arr(items) => Ok(items)
    case Obj(members) => Ok(seq(|members|, k requires 0 <= k < |members| => Str(members[k].0)))
  }

  /** `v[key]` with a string key: only a dict can answer, and a dict without the key raises
      KeyError; a list, a string and the scalars raise TypeError. */
  function Subscript(v: Json, key: string): (r: Result<Json>)
    ensures r.Ok? <==> v.Obj? && Lookup(v.members, key).Some?
    ensures r.Ok? ==> r.value == Lookup(v.members, key).value
    ensures v.Obj? && r.Err? ==> r.error == KeyError(key)
    ensures !v.Obj? ==> r.Err? && r.error.TypeError?
  {
    match v
    case Obj(members) =>
      (match Lookup(members, key)
       case Some(x) => Ok(x)
       case None => Err(KeyError(key)))
    case Arr(_) => Err(TypeError("list indices must be integers or slices, not str"))
    case Str(_) => Err(TypeError("string indices must be integers"))
    case Null => Err(TypeError("'NoneType' object is not subscriptable"))
    case Bool(_) => Err(TypeError("'bool' object is not subscriptable"))
    case Num(_) => Err(TypeError("'int' object is not subscriptable"))
  }
}
