/** phlyght/api.py: `get_url_args`, which lists the `{name[:type]}` placeholders of an
    endpoint template (the same function appears in phlyght/utils.py and phlyght/http.py),
    and the argument handling of `route`'s wrapper, which decides where each signature
    parameter and each placeholder takes its value from and merges the leftovers into the
    request body.

    The handler's signature, read by `inspect.signature` in the source, is given as a list of
    `Param`s. The annotation converter `type_(value)` is the opaque `convert(name, value)`,
    `str(value)` is `toStr(value)`, and Python truthiness is `truthy(value)`. */
module Api {
  import opened Results

  // ---------------------------------------------------------------------------------
  // STR_FMT_RE = (?=(\{([^:]+)(?::([^}]+))?\}))\1 and its finditer scan.

  /** The values of URL_TYPES. */
  datatype UrlType = StrType | IntType

  /** One match: group 2 (`name`), group 3 (`typeName`) and where the match ends. */
  datatype FmtMatch = FmtMatch(name: string, typeName: Option<string>, end: nat)

  /** The first index at or after `i` holding `c`, or `|s|` when there is none. */
  function NextChar(s: string, i: nat, c: char): (j: nat)
    requires i <= |s|
    ensures i <= j <= |s|
    ensures forall k | i <= k < j :: s[k] != c
    ensures j < |s| ==> s[j] == c
    decreases |s| - i
  {
    if i == |s| || s[i] == c then i else NextChar(s, i + 1, c)
  }

  /** The last index in [lo, hi) holding `c`. */
  function LastBefore(s: string, lo: nat, hi: nat, c: char): (r: Option<nat>)
    requires hi <= |s|
    ensures r.Some? ==> lo <= r.value < hi && s[r.value] == c
    ensures r.Some? ==> forall k | r.value < k < hi :: s[k] != c
    ensures r.None? ==> forall k | lo <= k < hi :: s[k] != c
    decreases hi
  {
    if hi <= lo then None
    else if s[hi - 1] == c then Some(hi - 1)
    else LastBefore(s, lo, hi - 1, c)
  }

  /** A slice of a stretch free of `c` does not hold `c`. */
  lemma {:induction false} Avoids(s: string, lo: nat, hi: nat, end: nat, c: char)
    requires lo <= hi <= end <= |s|
    requires forall k | lo <= k < end :: s[k] != c
    ensures c !in s[lo..hi]
  {
    assert forall k | 0 <= k < hi - lo :: s[lo..hi][k] == s[lo + k];
  }

  /** The first index at or after `from` holding `c` is `j` when `c` is at `j` and not
      before it. */
  lemma NextCharAt(s: string, from: nat, j: nat, c: char)
    requires from <= j < |s| && s[j] == c
    requires forall k | from <= k < j :: s[k] != c
    ensures NextChar(s, from, c) == j
  {
  }

  /** `s[i..e + 1]` is `{name}` with a non-empty name free of ':': a reading of the pattern
      at `i` without its optional `:type` part. */
  predicate PlainAt(s: string, i: nat, e: nat)
  {
    && i + 2 <= e < |s| && s[i] == '{' && s[e] == '}'
    && forall k | i + 1 <= k < e :: s[k] != ':'
  }

  /** `s[i..b + 1]` is `{name:type}` with the ':' at `c`: a non-empty name free of ':',
      then a non-empty type free of '}'. */
  predicate TypedAt(s: string, i: nat, c: nat, b: nat)
  {
    && i + 2 <= c && c + 2 <= b < |s| && s[i] == '{' && s[c] == ':' && s[b] == '}'
    && (forall k | i + 1 <= k < c :: s[k] != ':')
    && (forall k | c + 1 <= k < b :: s[k] != '}')
  }

  /** A plain reading ends before the first ':' after the brace, and a typed reading has its
      ':' there and its '}' at the first one after it. */
  lemma ReadingsAt(s: string, i: nat)
    requires i < |s|
    ensures forall e: nat | PlainAt(s, i, e) :: e < NextChar(s, i + 1, ':')
    ensures forall c: nat, b: nat | TypedAt(s, i, c, b) ::
              c == NextChar(s, i + 1, ':') && b == NextChar(s, c + 1, '}')
  {
    forall c: nat, b: nat | TypedAt(s, i, c, b)
      ensures c == NextChar(s, i + 1, ':') && b == NextChar(s, c + 1, '}')
    {
      NextCharAt(s, i + 1, c, ':');
      NextCharAt(s, c + 1, b, '}');
    }
  }

  /** The pattern tried at `i`. The greedy `[^:]+` first runs to the next ':' at `c`; there
      the optional `:type}` part is tried. Failing that, the name gives characters back until
      it is followed by '}', so it may itself contain '}' and '{'. What it returns is a
      reading of the pattern at `i`; `MatchAtChoice` says which one. */
  function MatchAt(s: string, i: nat): (r: Option<FmtMatch>)
    requires i <= |s|
    ensures r.Some? ==> i < |s| && s[i] == '{'
    ensures r.Some? ==>
              && |r.value.name| >= 1 && ':' !in r.value.name
              && i + 1 + |r.value.name| <= |s| && s[i + 1..i + 1 + |r.value.name|] == r.value.name
              && i + 2 + |r.value.name| <= r.value.end <= |s| && s[r.value.end - 1] == '}'
    ensures r.Some? && r.value.typeName.None? ==>
              r.value.end == i + 2 + |r.value.name| && PlainAt(s, i, r.value.end - 1)
    ensures r.Some? && r.value.typeName.Some? ==>
              var n, t := |r.value.name|, r.value.typeName.value;
              && s[i + 1 + n] == ':' && |t| >= 1 && '}' !in t
              && r.value.end == i + 3 + n + |t| && s[i + 2 + n..r.value.end - 1] == t
              && TypedAt(s, i, i + 1 + n, r.value.end - 1)
  {
    if i == |s| || s[i] != '{' then None
    else
      var c := NextChar(s, i + 1, ':');
      if c == i + 1 then None
      else if c < |s| && c + 1 < NextChar(s, c + 1, '}') < |s| then
        var b := NextChar(s, c + 1, '}');
        Avoids(s, i + 1, c, c, ':');
        Avoids(s, c + 1, b, b, '}');
        Some(FmtMatch(s[i + 1..c], Some(s[c + 1..b]), b + 1))
      else
        match LastBefore(s, i + 2, c, '}')
        case None => None
        case Some(e) =>
          Avoids(s, i + 1, e, c, ':');
          Some(FmtMatch(s[i + 1..e], None, e + 1))
  }

  /** Which reading the backtracking matcher picks at `i`: a typed reading, when there is
      one, is the match; otherwise the plain reading with the longest name is; so there is
      a match whenever there is any reading. */
  lemma MatchAtChoice(s: string, i: nat)
    requires i <= |s|
    ensures forall c: nat, b: nat | TypedAt(s, i, c, b) ::
              MatchAt(s, i) == Some(FmtMatch(s[i + 1..c], Some(s[c + 1..b]), b + 1))
    ensures forall e: nat | PlainAt(s, i, e) ::
              MatchAt(s, i).Some? && (MatchAt(s, i).value.typeName.Some? || e + 1 <= MatchAt(s, i).value.end)
  {
    if i < |s| {
      ReadingsAt(s, i);
    }
  }

  /** `STR_FMT_RE.finditer(s)` from `pos`: each match is searched for from where the
      previous one ended. */
  function FindAll(s: string, pos: nat): (ms: seq<FmtMatch>)
    requires pos <= |s|
    ensures forall k | 0 <= k < |ms| :: pos < ms[k].end <= |s| && |ms[k].name| >= 1 && ':' !in ms[k].name
    ensures forall k | 0 < k < |ms| :: ms[k - 1].end < ms[k].end
    decreases |s| - pos
  {
    if pos == |s| then []
    else
      match MatchAt(s, pos)
      case Some(m) => [m] + FindAll(s, m.end)
      case None => FindAll(s, pos + 1)
  }

  /** A stretch without '{' holds no match. */
  lemma {:induction false} SkipNoBrace(s: string, pos: nat, q: nat)
    requires pos <= q <= |s|
    requires forall k | pos <= k < q :: s[k] != '{'
    ensures FindAll(s, pos) == FindAll(s, q)
    decreases q - pos
  {
    if pos < q {
      SkipNoBrace(s, pos + 1, q);
    }
  }

  /** With no match from `pos` on, nothing is found. */
  lemma {:induction false} FindAllNone(s: string, pos: nat)
    requires pos <= |s|
    requires forall k | pos <= k < |s| :: MatchAt(s, k).None?
    ensures FindAll(s, pos) == []
    decreases |s| - pos
  {
    if pos < |s| {
      FindAllNone(s, pos + 1);
    }
  }

  /** The first match found from `pos` is the left-most position where the pattern matches,
      and the scan resumes where that match ends, so matches never overlap. */
  lemma {:induction false} FindAllFirst(s: string, pos: nat, q: nat)
    requires pos <= q <= |s| && MatchAt(s, q).Some?
    requires forall k | pos <= k < q :: MatchAt(s, k).None?
    ensures FindAll(s, pos) == [MatchAt(s, q).value] + FindAll(s, MatchAt(s, q).value.end)
    decreases q - pos
  {
    if pos < q {
      FindAllFirst(s, pos + 1, q);
    }
  }

  /** The group-2 names of the matches, in order. */
  function Names(ms: seq<FmtMatch>): (names: seq<string>)
    ensures |names| == |ms|
    ensures forall k | 0 <= k < |ms| :: names[k] == ms[k].name
  {
    if ms == [] then [] else [ms[0].name] + Names(ms[1..])
  }

  /** The index of the first occurrence of `x` in `xs`. */
  function IndexOf(xs: seq<string>, x: string): (k: nat)
    requires x in xs
    ensures k < |xs| && xs[k] == x
    ensures forall j | 0 <= j < k :: xs[j] != x
  {
    if xs[0] == x then 0 else 1 + IndexOf(xs[1..], x)
  }

  /** Appending an element leaves the first occurrences of the earlier ones where they are;
      a new element first occurs at the end. */
  lemma IndexOfSnoc(xs: seq<string>, y: string)
    ensures forall x | x in xs :: IndexOf(xs + [y], x) == IndexOf(xs, x)
    ensures y !in xs ==> IndexOf(xs + [y], y) == |xs|
  {
    forall x | x in xs ensures IndexOf(xs + [y], x) == IndexOf(xs, x) {
      var k, m := IndexOf(xs + [y], x), IndexOf(xs, x);
      assert (xs + [y])[m] == x;
    }
  }

  /** The elements of `r`, all drawn from `xs`, come in the order of their first occurrences
      in `xs`. */
  predicate InFirstOccurrenceOrder(xs: seq<string>, r: seq<string>)
    requires forall x | x in r :: x in xs
  {
    forall i, j | 0 <= i < j < |r| :: IndexOf(xs, r[i]) < IndexOf(xs, r[j])
  }

  /** The keys of a dict filled in the order `xs`: each key once, in the order of its first
      occurrence. */
  function Dedup(xs: seq<string>): (r: seq<string>)
    ensures forall x :: x in r <==> x in xs
    ensures forall i, j | 0 <= i < j < |r| :: r[i] != r[j]
    ensures InFirstOccurrenceOrder(xs, r)
  {
    if xs == [] then []
    else
      var pre, last := xs[..|xs| - 1], xs[|xs| - 1];
      assert xs == pre + [last];
      var d := Dedup(pre);
      DedupSnocKeeps(pre, last, d);
      if last in d then d else d + [last]
  }

  /** Filling one more key keeps the three properties of the keys. */
  lemma DedupSnocKeeps(pre: seq<string>, last: string, d: seq<string>)
    requires forall x :: x in d <==> x in pre
    requires forall i, j | 0 <= i < j < |d| :: d[i] != d[j]
    requires InFirstOccurrenceOrder(pre, d)
    ensures var xs, r := pre + [last], if last in d then d else d + [last];
            && (forall x :: x in r <==> x in xs)
            && (forall i, j | 0 <= i < j < |r| :: r[i] != r[j])
            && InFirstOccurrenceOrder(xs, r)
  {
    IndexOfSnoc(pre, last);
  }

  /** Filling the key at index `i` into the dict. */
  lemma DedupStep(xs: seq<string>, i: nat)
    requires i < |xs|
    ensures Dedup(xs[..i + 1]) == if xs[i] in Dedup(xs[..i]) then Dedup(xs[..i]) else Dedup(xs[..i]) + [xs[i]]
  {
    assert xs[..i + 1][..i] == xs[..i];
  }

  /** A repeated name keeps the place of its first occurrence. */
  lemma DedupExample()
    ensures Dedup(["b", "a", "b"]) == ["b", "a"]
  {
    var xs: seq<string> := ["b", "a", "b"];
    assert xs[..0] == [] && xs[..3] == xs;
    DedupStep(xs, 0);
    DedupStep(xs, 1);
    DedupStep(xs, 2);
  }

  /** The placeholder names of an endpoint template, as the keys of `get_url_args`. */
  function UrlArgNames(url: string): (names: seq<string>)
    ensures forall i, j | 0 <= i < j < |names| :: names[i] != names[j]
    ensures forall n | n in names :: |n| >= 1 && ':' !in n
  {
    Dedup(Names(FindAll(url, 0)))
  }

  /** `get_url_args(url)`: a dict from each placeholder name to its converter, keys in the
      order the names first appear. `m.groups()` always has three entries, so the `>= 4`
      branch never runs and every converter is `str`, whatever `:type` says. */
  method GetUrlArgs(url: string) returns (names: seq<string>, kwds: map<string, UrlType>)
    ensures names == UrlArgNames(url)
    ensures forall n :: n in kwds <==> n in names
    ensures forall n | n in kwds :: kwds[n] == StrType
  {
    var ms := FindAll(url, 0);
    ghost var all := Names(ms);
    names, kwds := [], map[];
    var i := 0;
    while i < |ms|
      invariant 0 <= i <= |ms|
      invariant names == Dedup(all[..i])
      invariant forall n :: n in kwds <==> n in names
      invariant forall n | n in kwds :: kwds[n] == StrType
    {
      DedupStep(all, i);
      names, kwds := SetStr(names, kwds, ms[i].name);
      i := i + 1;
    }
    assert all[..|ms|] == all;
  }

  /** At the brace of `{name}`, with no ':' or '}' in the name and no '}' after it, the
      match is the plain reading `name`. */
  lemma OnePlaceholderMatch(pre: string, name: string, post: string)
    requires |name| >= 1 && ':' !in name && '}' !in name && '}' !in post
    ensures var s := pre + "{" + name + "}" + post;
            MatchAt(s, |pre|) == Some(FmtMatch(name, None, |pre| + |name| + 2))
  {
    var s := pre + "{" + name + "}" + post;
    var q, e := |pre|, |pre| + 1 + |name|;
    assert forall k | q < k < e :: s[k] == name[k - q - 1];
    assert forall k | e < k < |s| :: s[k] == post[k - e - 1];
    assert s[q] == '{' && s[e] == '}';
    assert PlainAt(s, q, e);
    MatchAtChoice(s, q);
    var m := MatchAt(s, q).value;
    assert m.typeName.None?;
    assert m.end == e + 1;
    assert s[q + 1..e] == name;
  }

  /** `kwds[name] = str`: the key is added at the end unless it is already there. */
  method SetStr(names: seq<string>, kwds: map<string, UrlType>, name: string)
    returns (names': seq<string>, kwds': map<string, UrlType>)
    requires forall n :: n in kwds <==> n in names
    requires forall n | n in kwds :: kwds[n] == StrType
    ensures names' == if name in names then names else names + [name]
    ensures forall n :: n in kwds' <==> n in names'
    ensures forall n | n in kwds' :: kwds'[n] == StrType
  {
    names' := if name in kwds then names else names + [name];
    kwds' := kwds[name := StrType];
  }

  /** A template with one placeholder `{name}`, no ':' or '}' in the name, no '{' before it
      and no brace after it, has exactly that name as its argument. */
  lemma OnePlaceholderArgs(pre: string, name: string, post: string)
    requires '{' !in pre && |name| >= 1 && ':' !in name && '}' !in name
    requires '{' !in post && '}' !in post
    ensures UrlArgNames(pre + "{" + name + "}" + post) == [name]
  {
    var s := pre + "{" + name + "}" + post;
    var q, e := |pre|, |pre| + 1 + |name|;
    assert forall k | 0 <= k < q :: s[k] == pre[k];
    assert forall k | e < k < |s| :: s[k] == post[k - e - 1];
    SkipNoBrace(s, 0, q);
    OnePlaceholderMatch(pre, name, post);
    SkipNoBrace(s, e + 1, |s|);
    assert FindAll(s, 0) == [FmtMatch(name, None, e + 1)];
    assert Names([FmtMatch(name, None, e + 1)]) == [name];
    assert Dedup([name]) == [name] by {
      assert [name][..0] == [];
      assert Dedup([]) == [];
    }
    assert UrlArgNames(s) == [name];
  }

  /** A template without '{' has no placeholders. */
  lemma NoBraceNoArgs(url: string)
    requires '{' !in url
    ensures UrlArgNames(url) == []
  {
    SkipNoBrace(url, 0, |url|);
  }

  const LightPath := "/resource/light/{light_id}"

  /** The placeholder of `LightPath` as the pattern reads it at its '{'. */
  lemma LightPathMatch()
    ensures MatchAt(LightPath, 16) == Some(FmtMatch("light_id", None, 26))
  {
    assert NextChar(LightPath, 17, ':') == 26;
    assert LastBefore(LightPath, 18, 26, '}') == Some(25);
    assert LightPath[17..25] == "light_id";
  }

  /** One placeholder, found after sixteen characters without '{'. */
  lemma LightPathArgs()
    ensures UrlArgNames(LightPath) == ["light_id"]
  {
    assert forall k | 0 <= k < 16 :: LightPath[k] != '{';
    SkipNoBrace(LightPath, 0, 16);
    LightPathMatch();
    assert FindAll(LightPath, 0) == [FmtMatch("light_id", None, 26)];
  }

  const TypedPath := "{x:int}"

  /** The placeholder of `TypedPath`: name "x", type "int". */
  lemma TypedPathMatch()
    ensures MatchAt(TypedPath, 0) == Some(FmtMatch("x", Some("int"), 7))
  {
    assert NextChar(TypedPath, 1, ':') == 2;
    assert NextChar(TypedPath, 3, '}') == 6;
    assert TypedPath[1..2] == "x" && TypedPath[3..6] == "int";
  }

  /** The type part is matched as group 3 but plays no part: the name is "x". */
  lemma TypedPathArgs()
    ensures FindAll(TypedPath, 0) == [FmtMatch("x", Some("int"), 7)]
    ensures UrlArgNames(TypedPath) == ["x"]
  {
    TypedPathMatch();
  }

  const TwoPlaceholders := "/a/{x}/b/{y}"

  /** At the first '{' the name runs to the last '}'. */
  lemma TwoPlaceholdersMatch()
    ensures MatchAt(TwoPlaceholders, 3) == Some(FmtMatch("x}/b/{y", None, 12))
  {
    assert NextChar(TwoPlaceholders, 4, ':') == 12;
    assert LastBefore(TwoPlaceholders, 5, 12, '}') == Some(11);
    assert TwoPlaceholders[4..11] == "x}/b/{y";
  }

  /** The greedy name runs past the first '}' to the last one: two placeholders read as
      the single name "x}/b/{y". */
  lemma TwoPlaceholdersArgs()
    ensures UrlArgNames(TwoPlaceholders) == ["x}/b/{y"]
  {
    assert forall k | 0 <= k < 3 :: TwoPlaceholders[k] != '{';
    SkipNoBrace(TwoPlaceholders, 0, 3);
    TwoPlaceholdersMatch();
    assert FindAll(TwoPlaceholders, 0) == [FmtMatch("x}/b/{y", None, 12)];
  }

  // ---------------------------------------------------------------------------------
  // The argument handling of `route`'s wrapper.

  /** One parameter of the decorated handler: its name and whether it lacks a default. A
      `**kwargs` catch-all has no default either, so it counts as required. */
  datatype Param = Param(name: string, required: bool)

  /** Keyword arguments still to place, and the request body built so far. */
  datatype Bound<T> = Bound(kwargs: map<string, T>, data: map<string, T>)

  /** Where each source stands while the placeholders are resolved. */
  datatype Resolution<T> = Resolution(urlArgs: map<string, T>, kwargs: map<string, T>, params: map<string, T>, data: map<string, T>)

  /** What the wrapper hands to the HTTP client: placeholder values, body and query. */
  datatype Request<T> = Request(urlArgs: map<string, T>, data: map<string, T>, params: map<string, T>)

  /** `b'` comes from `b` by moving names from the keyword arguments into the body: no
      name is lost and none appears. */
  predicate KeysKept<T>(b: Bound<T>, b': Bound<T>)
  {
    && b'.kwargs.Keys <= b.kwargs.Keys && b.data.Keys <= b'.data.Keys
    && b'.kwargs.Keys + b'.data.Keys == b.kwargs.Keys + b.data.Keys
  }

  /** One turn of the signature loop. "self" is skipped; a required parameter missing from
      both the keyword arguments and the body raises TypeError, and one given as a keyword
      moves, converted, into the body; an optional one moves only when its value is truthy. */
  function BindParam<T>(p: Param, b: Bound<T>, convert: (string, T) -> T, truthy: T -> bool): (r: Result<Bound<T>>)
    ensures r.Err? ==> p.required && p.name !in b.kwargs && p.name !in b.data
    ensures r.Ok? ==> KeysKept(b, r.value)
  {
    if p.name == "self" then Ok(b)
    else if p.required && p.name !in b.kwargs && p.name !in b.data then Err(TypeError(p.name))
    else if p.name in b.kwargs && (p.required || truthy(b.kwargs[p.name])) then
      Ok(Bound(b.kwargs - {p.name}, b.data[p.name := convert(p.name, b.kwargs[p.name])]))
    else Ok(b)
  }

  /** The signature loop, parameter by parameter. */
  function BindSignature<T>(sig: seq<Param>, b: Bound<T>, convert: (string, T) -> T, truthy: T -> bool): (r: Result<Bound<T>>)
    ensures r.Ok? ==> KeysKept(b, r.value)
  {
    if sig == [] then Ok(b)
    else
      match BindParam(sig[0], b, convert, truthy)
      case Err(e) => Err(e)
      case Ok(b') => BindSignature(sig[1..], b', convert, truthy)
  }

  /** `r'` comes from `r` by popping values from the three sources into the URL arguments. */
  predicate Narrows<T>(r: Resolution<T>, r': Resolution<T>)
  {
    && r.urlArgs.Keys <= r'.urlArgs.Keys && r'.kwargs.Keys <= r.kwargs.Keys
    && r'.params.Keys <= r.params.Keys && r'.data.Keys <= r.data.Keys
  }

  /** One turn of the placeholder loop: the value is popped from the keyword arguments,
      else from the query parameters, else from the body, and converted with `str`; a name
      found in none of them raises ValueError. */
  function ResolveName<T>(k: string, r: Resolution<T>, toStr: T -> T): (res: Result<Resolution<T>>)
    ensures res.Err? <==> k !in r.kwargs && k !in r.params && k !in r.data
    ensures res.Ok? ==> res.value.urlArgs.Keys == r.urlArgs.Keys + {k} && Narrows(r, res.value)
  {
    if k in r.kwargs then
      Ok(Resolution(r.urlArgs[k := toStr(r.kwargs[k])], r.kwargs - {k}, r.params, r.data))
    else if k in r.params then
      Ok(Resolution(r.urlArgs[k := toStr(r.params[k])], r.kwargs, r.params - {k}, r.data))
    else if k in r.data then
      Ok(Resolution(r.urlArgs[k := toStr(r.data[k])], r.kwargs, r.params, r.data - {k}))
    else Err(ValueError(k))
  }

  /** The placeholder loop over the names of `get_url_args`, in order. */
  function ResolveNames<T>(names: seq<string>, r: Resolution<T>, toStr: T -> T): (res: Result<Resolution<T>>)
    ensures res.Ok? ==> Narrows(r, res.value) && forall n | n in names :: n in res.value.urlArgs
  {
    if names == [] then Ok(r)
    else
      match ResolveName(names[0], r, toStr)
      case Err(e) => Err(e)
      case Ok(r') => ResolveNames(names[1..], r', toStr)
  }

  /** `data = data | kwargs if data else kwargs`, run when `kwargs` is non-empty: the union
      of both, the keyword arguments winning on a clash. */
  function Merge<T>(data: map<string, T>, kwargs: map<string, T>): (m: map<string, T>)
    ensures forall k :: k in m <==> k in data || k in kwargs
    ensures forall k | k in kwargs :: m[k] == kwargs[k]
    ensures forall k | k in data && k !in kwargs :: m[k] == data[k]
  {
    if kwargs == map[] then data
    else if data != map[] then data + kwargs
    else kwargs
  }

  /** The whole argument handling of the wrapper, as a function of its inputs. */
  function RouteArgs<T>(sig: seq<Param>, endpoint: string, kwargs: map<string, T>, params: map<string, T>,
                        data: map<string, T>, convert: (string, T) -> T, toStr: T -> T, truthy: T -> bool): (res: Result<Request<T>>)
    ensures res.Ok? ==> forall n | n in UrlArgNames(endpoint) :: n in res.value.urlArgs
    ensures res.Ok? ==> res.value.params.Keys <= params.Keys
    ensures res.Ok? ==> forall n | n in res.value.data :: n in data || n in kwargs
  {
    match BindSignature(sig, Bound(kwargs, data), convert, truthy)
    case Err(e) => Err(e)
    case Ok(b) =>
      match ResolveNames(UrlArgNames(endpoint), Resolution(map[], b.kwargs, params, b.data), toStr)
      case Err(e) => Err(e)
      case Ok(r) => Ok(Request(r.urlArgs, Merge(r.data, r.kwargs), r.params))
  }

  /** The signature loop of the wrapper: pops from `kwargs` and writes to `data`. */
  method BindLoop<T>(sig: seq<Param>, kwargs0: map<string, T>, data0: map<string, T>,
                     convert: (string, T) -> T, truthy: T -> bool)
    returns (r: Result<Bound<T>>)
    ensures r == BindSignature(sig, Bound(kwargs0, data0), convert, truthy)
  {
    var kwargs, data := kwargs0, data0;
    var i := 0;
    while i < |sig|
      invariant 0 <= i <= |sig|
      invariant BindSignature(sig, Bound(kwargs0, data0), convert, truthy)
                == BindSignature(sig[i..], Bound(kwargs, data), convert, truthy)
    {
      var p := sig[i];
      assert sig[i..][0] == p && sig[i..][1..] == sig[i + 1..];
      if p.name != "self" {
        if p.required {
          if p.name !in kwargs && p.name !in data {
            return Err(TypeError(p.name));
          }
          if p.name in kwargs {
            data := data[p.name := convert(p.name, kwargs[p.name])];
            kwargs := kwargs - {p.name};
          }
        } else if p.name in kwargs && truthy(kwargs[p.name]) {
          data := data[p.name := convert(p.name, kwargs[p.name])];
          kwargs := kwargs - {p.name};
        }
      }
      i := i + 1;
    }
    return Ok(Bound(kwargs, data));
  }

  /** The placeholder loop of the wrapper: pops from the three sources into `url_args`. */
  method ResolveLoop<T>(names: seq<string>, start: Resolution<T>, toStr: T -> T)
    returns (r: Result<Resolution<T>>)
    ensures r == ResolveNames(names, start, toStr)
  {
    var urlArgs, kwargs, params, data := start.urlArgs, start.kwargs, start.params, start.data;
    var j := 0;
    while j < |names|
      invariant 0 <= j <= |names|
      invariant ResolveNames(names, start, toStr)
                == ResolveNames(names[j..], Resolution(urlArgs, kwargs, params, data), toStr)
    {
      var k := names[j];
      assert names[j..][0] == k && names[j..][1..] == names[j + 1..];
      if k !in kwargs && k !in params && k !in data {
        return Err(ValueError(k));
      }
      if k in kwargs {
        urlArgs := urlArgs[k := toStr(kwargs[k])];
        kwargs := kwargs - {k};
      } else if k in params {
        urlArgs := urlArgs[k := toStr(params[k])];
        params := params - {k};
      } else {
        urlArgs := urlArgs[k := toStr(data[k])];
        data := data - {k};
      }
      j := j + 1;
    }
    return Ok(Resolution(urlArgs, kwargs, params, data));
  }

  /** The body of `route`'s wrapper up to the request: `params` and `data` are already
      `params or {}` and `data or {}`. */
  method Resolve<T>(sig: seq<Param>, endpoint: string, kwargs: map<string, T>, params: map<string, T>,
                    data: map<string, T>, convert: (string, T) -> T, toStr: T -> T, truthy: T -> bool)
    returns (r: Result<Request<T>>)
    ensures r == RouteArgs(sig, endpoint, kwargs, params, data, convert, toStr, truthy)
  {
    var bound := BindLoop(sig, kwargs, data, convert, truthy);
    if bound.Err? {
      return Err(bound.error);
    }
    var names, urlTypes := GetUrlArgs(endpoint);
    var res := ResolveLoop(names, Resolution(map[], bound.value.kwargs, params, bound.value.data), toStr);
    if res.Err? {
      return Err(res.error);
    }
    var body := res.value.data;
    if res.value.kwargs != map[] {
      body := if body != map[] then body + res.value.kwargs else res.value.kwargs;
    }
    return Ok(Request(res.value.urlArgs, body, res.value.params));
  }

  // ---------------------------------------------------------------------------------
  // What the loops decide, stated for all inputs at once.

  /** Handler parameter names are distinct, as in any Python signature. */
  predicate DistinctNames(sig: seq<Param>)
  {
    forall i, j | 0 <= i < j < |sig| :: sig[i].name != sig[j].name
  }

  /** A required parameter given neither as a keyword argument nor in the body. */
  predicate MissingRequired<T>(p: Param, b: Bound<T>)
  {
    p.name != "self" && p.required && p.name !in b.kwargs && p.name !in b.data
  }

  /** A parameter whose keyword argument moves into the body. */
  predicate Moves<T>(p: Param, kwargs: map<string, T>, truthy: T -> bool)
  {
    p.name != "self" && p.name in kwargs && (p.required || truthy(kwargs[p.name]))
  }

  function MovedNames<T>(sig: seq<Param>, kwargs: map<string, T>, truthy: T -> bool): (m: set<string>)
    ensures forall n | n in m :: n in kwargs
  {
    set i | 0 <= i < |sig| && Moves(sig[i], kwargs, truthy) :: sig[i].name
  }

  /** The signature loop raises TypeError exactly when some required parameter is in
      neither the keyword arguments nor the body, and then names the first such one. */
  lemma {:induction false} BindSignatureFails<T>(sig: seq<Param>, b: Bound<T>, convert: (string, T) -> T, truthy: T -> bool)
    requires DistinctNames(sig)
    ensures BindSignature(sig, b, convert, truthy).Err? <==>
              exists i | 0 <= i < |sig| :: MissingRequired(sig[i], b)
    ensures BindSignature(sig, b, convert, truthy).Err? ==>
              exists i | 0 <= i < |sig| ::
                && MissingRequired(sig[i], b)
                && (forall j | 0 <= j < i :: !MissingRequired(sig[j], b))
                && BindSignature(sig, b, convert, truthy).error == TypeError(sig[i].name)
  {
    if sig != [] {
      var p := sig[0];
      if !MissingRequired(p, b) {
        var b1 := BindParam(p, b, convert, truthy).value;
        assert DistinctNames(sig[1..]);
        BindSignatureFails(sig[1..], b1, convert, truthy);
        forall j | 1 <= j < |sig|
          ensures MissingRequired(sig[1..][j - 1], b1) <==> MissingRequired(sig[j], b)
        {
          assert sig[1..][j - 1] == sig[j] && sig[j].name != p.name;
        }
        if BindSignature(sig, b, convert, truthy).Err? {
          var i' :| 0 <= i' < |sig[1..]| && MissingRequired(sig[1..][i'], b1)
                    && (forall j | 0 <= j < i' :: !MissingRequired(sig[1..][j], b1))
                    && BindSignature(sig[1..], b1, convert, truthy).error == TypeError(sig[1..][i'].name);
          assert MissingRequired(sig[i' + 1], b);
          assert forall j | 0 <= j < i' + 1 :: !MissingRequired(sig[j], b) by {
            forall j | 0 <= j < i' + 1 ensures !MissingRequired(sig[j], b) {
              if j > 0 { assert !MissingRequired(sig[1..][j - 1], b1); }
            }
          }
        }
      }
    }
  }

  /** With distinct names, the names moved by a signature are those moved by its tail, plus
      the head's when it moves; the tail moves the same names once the head's keyword
      argument is gone, and never the head's name. */
  lemma MovedNamesCons<T>(sig: seq<Param>, kwargs: map<string, T>, kwargs1: map<string, T>, truthy: T -> bool)
    requires DistinctNames(sig) && sig != []
    requires forall n | n != sig[0].name :: (n in kwargs1 <==> n in kwargs)
    requires forall n | n != sig[0].name && n in kwargs :: kwargs1[n] == kwargs[n]
    ensures var p, movedTail := sig[0], MovedNames(sig[1..], kwargs1, truthy);
            && movedTail == MovedNames(sig[1..], kwargs, truthy)
            && p.name !in movedTail
            && MovedNames(sig, kwargs, truthy) == movedTail + (if Moves(p, kwargs, truthy) then {p.name} else {})
  {
    var p := sig[0];
    var movedTail := MovedNames(sig[1..], kwargs1, truthy);
    assert movedTail == MovedNames(sig[1..], kwargs, truthy) by {
      forall j | 0 <= j < |sig| - 1
        ensures Moves(sig[1..][j], kwargs1, truthy) <==> Moves(sig[1..][j], kwargs, truthy)
      {
        assert sig[1..][j] == sig[j + 1] && sig[j + 1].name != p.name;
      }
    }
    assert p.name !in movedTail by {
      forall j | 0 <= j < |sig| - 1 ensures sig[1..][j].name != p.name {
        assert sig[1..][j] == sig[j + 1];
      }
    }
    var moved := MovedNames(sig, kwargs, truthy);
    assert moved == movedTail + (if Moves(p, kwargs, truthy) then {p.name} else {}) by {
      forall n | n in moved ensures n in movedTail || (Moves(p, kwargs, truthy) && n == p.name) {
        var i :| 0 <= i < |sig| && Moves(sig[i], kwargs, truthy) && sig[i].name == n;
        if i > 0 { assert sig[1..][i - 1] == sig[i]; }
      }
      forall n | n in movedTail ensures n in moved {
        var i :| 0 <= i < |sig| - 1 && Moves(sig[1..][i], kwargs, truthy) && sig[1..][i].name == n;
        assert sig[1..][i] == sig[i + 1];
      }
      if Moves(p, kwargs, truthy) { assert sig[0].name in moved; }
    }
  }

  /** When the signature loop completes, the keyword arguments that moved are exactly those
      of required parameters and of optional ones with a truthy value: they leave
      `kwargs`, and the body holds them converted, over whatever it held before. */
  lemma {:induction false} BindSignaturePlaces<T>(sig: seq<Param>, b: Bound<T>, convert: (string, T) -> T, truthy: T -> bool)
    requires DistinctNames(sig)
    requires BindSignature(sig, b, convert, truthy).Ok?
    ensures var r, moved := BindSignature(sig, b, convert, truthy).value, MovedNames(sig, b.kwargs, truthy);
            && r.kwargs == b.kwargs - moved
            && (forall n :: n in r.data <==> n in b.data || n in moved)
            && (forall n | n in moved :: r.data[n] == convert(n, b.kwargs[n]))
            && (forall n | n in b.data && n !in moved :: r.data[n] == b.data[n])
  {
    if sig != [] {
      var p := sig[0];
      var b1 := BindParam(p, b, convert, truthy).value;
      assert DistinctNames(sig[1..]);
      BindSignaturePlaces(sig[1..], b1, convert, truthy);
      MovedNamesCons(sig, b.kwargs, b1.kwargs, truthy);
    }
  }

  /** Where a placeholder's value comes from: the keyword arguments, else the query
      parameters, else the body. */
  function Source<T>(k: string, r: Resolution<T>): Option<T>
  {
    if k in r.kwargs then Some(r.kwargs[k])
    else if k in r.params then Some(r.params[k])
    else if k in r.data then Some(r.data[k])
    else None
  }

  predicate Distinct(names: seq<string>)
  {
    forall i, j | 0 <= i < j < |names| :: names[i] != names[j]
  }

  /** Resolving one placeholder leaves where any other one comes from unchanged. */
  lemma SourceAfterPop<T>(k: string, r: Resolution<T>, toStr: T -> T, n: string)
    requires Source(k, r).Some? && n != k
    ensures Source(n, ResolveName(k, r, toStr).value) == Source(n, r)
  {
  }

  /** The placeholder loop raises ValueError exactly when some placeholder is in none of
      the three sources, and then names the first such one. */
  lemma {:induction false} ResolveNamesFails<T>(names: seq<string>, r: Resolution<T>, toStr: T -> T)
    requires Distinct(names)
    ensures ResolveNames(names, r, toStr).Err? <==>
              exists i | 0 <= i < |names| :: Source(names[i], r).None?
    ensures ResolveNames(names, r, toStr).Err? ==>
              exists i | 0 <= i < |names| ::
                && Source(names[i], r).None?
                && (forall j | 0 <= j < i :: Source(names[j], r).Some?)
                && ResolveNames(names, r, toStr).error == ValueError(names[i])
  {
    if names != [] {
      var k := names[0];
      if Source(k, r).Some? {
        var r1 := ResolveName(k, r, toStr).value;
        assert Distinct(names[1..]);
        ResolveNamesFails(names[1..], r1, toStr);
        forall j | 1 <= j < |names|
          ensures Source(names[1..][j - 1], r1) == Source(names[j], r)
        {
          assert names[1..][j - 1] == names[j] && names[j] != k;
          SourceAfterPop(k, r, toStr, names[j]);
        }
        if ResolveNames(names, r, toStr).Err? {
          var i' :| 0 <= i' < |names[1..]| && Source(names[1..][i'], r1).None?
                    && (forall j | 0 <= j < i' :: Source(names[1..][j], r1).Some?)
                    && ResolveNames(names[1..], r1, toStr).error == ValueError(names[1..][i']);
          assert Source(names[i' + 1], r).None?;
          assert forall j | 0 <= j < i' + 1 :: Source(names[j], r).Some? by {
            forall j | 0 <= j < i' + 1 ensures Source(names[j], r).Some? {
              if j > 0 { assert Source(names[1..][j - 1], r1).Some?; }
            }
          }
        }
      }
    }
  }

  /** The first placeholder is none of the others. */
  lemma {:induction false} HeadNotInTail(names: seq<string>)
    requires Distinct(names) && names != []
    ensures Distinct(names[1..]) && names[0] !in names[1..]
    ensures forall x :: x in names <==> x == names[0] || x in names[1..]
  {
    var rest := names[1..];
    forall j | 0 <= j < |rest| ensures rest[j] != names[0] { assert rest[j] == names[j + 1]; }
    forall x | x in names ensures x == names[0] || x in rest {
      var j :| 0 <= j < |names| && names[j] == x;
      if j > 0 { assert rest[j - 1] == x; }
    }
  }

  /** When the placeholder loop completes, `url_args` holds every placeholder and keeps
      what it held before. */
  lemma {:induction false} ResolveNamesKeys<T>(names: seq<string>, r: Resolution<T>, toStr: T -> T)
    requires Distinct(names)
    requires ResolveNames(names, r, toStr).Ok?
    ensures var r' := ResolveNames(names, r, toStr).value;
            && (forall k :: k in r'.urlArgs <==> k in r.urlArgs || k in names)
            && (forall k | k in r.urlArgs && k !in names :: r'.urlArgs[k] == r.urlArgs[k])
  {
    if names != [] {
      HeadNotInTail(names);
      ResolveNamesKeys(names[1..], ResolveName(names[0], r, toStr).value, toStr);
    }
  }

  /** When the placeholder loop completes, the placeholder `k` holds `str` of the value
      from its first source. */
  lemma {:induction false} ResolveNamesValue<T>(names: seq<string>, r: Resolution<T>, toStr: T -> T, k: string)
    requires Distinct(names) && k in names
    requires ResolveNames(names, r, toStr).Ok?
    ensures Source(k, r).Some?
    ensures k in ResolveNames(names, r, toStr).value.urlArgs
    ensures ResolveNames(names, r, toStr).value.urlArgs[k] == toStr(Source(k, r).value)
  {
    var r1 := ResolveName(names[0], r, toStr).value;
    HeadNotInTail(names);
    if k == names[0] {
      ResolveNamesKeys(names[1..], r1, toStr);
    } else {
      ResolveNamesValue(names[1..], r1, toStr, k);
      assert Source(k, r1) == Source(k, r);
    }
  }

  /** When the placeholder loop completes, each placeholder holds `str` of the value from
      its first source. */
  lemma ResolveNamesValues<T>(names: seq<string>, r: Resolution<T>, toStr: T -> T)
    requires Distinct(names)
    requires ResolveNames(names, r, toStr).Ok?
    ensures var r' := ResolveNames(names, r, toStr).value;
            forall k | k in names :: Source(k, r).Some? && k in r'.urlArgs && r'.urlArgs[k] == toStr(Source(k, r).value)
  {
    forall k | k in names
      ensures Source(k, r).Some? && k in ResolveNames(names, r, toStr).value.urlArgs
      ensures ResolveNames(names, r, toStr).value.urlArgs[k] == toStr(Source(k, r).value)
    {
      ResolveNamesValue(names, r, toStr, k);
    }
  }

  /** When the placeholder loop completes, each placeholder's value has left its first
      source and no other: every other entry of the three sources is still in place. */
  lemma {:induction false} ResolveNamesPops<T>(names: seq<string>, r: Resolution<T>, toStr: T -> T)
    requires Distinct(names)
    requires ResolveNames(names, r, toStr).Ok?
    ensures var r' := ResolveNames(names, r, toStr).value;
            && (forall x :: x in r'.kwargs <==> x in r.kwargs && x !in names)
            && (forall x :: x in r'.params <==> x in r.params && (x !in names || x in r.kwargs))
            && (forall x :: x in r'.data <==> x in r.data && (x !in names || x in r.kwargs || x in r.params))
            && (forall x | x in r'.kwargs :: r'.kwargs[x] == r.kwargs[x])
            && (forall x | x in r'.params :: r'.params[x] == r.params[x])
            && (forall x | x in r'.data :: r'.data[x] == r.data[x])
  {
    if names != [] {
      var k := names[0];
      var r1 := ResolveName(k, r, toStr).value;
      HeadNotInTail(names);
      ResolveNamesPops(names[1..], r1, toStr);
    }
  }

  // ---------------------------------------------------------------------------------
  // Handlers of the source, with integers for values: `convert` adds 100 and `str`
  // doubles, so the result shows which conversions ran.

  function AddHundred(n: string, v: int): int { v + 100 }
  function Double(v: int): int { 2 * v }
  function NonZero(v: int): bool { v != 0 }

  /** The signature loop of the light example moves `light_id`, converted, into the body. */
  lemma GetLightBind()
    ensures BindSignature([Param("self", true), Param("light_id", true)], Bound(map["light_id" := 7], map[]),
                          AddHundred, NonZero)
            == Ok(Bound(map[], map["light_id" := 107]))
  {
    var sig := [Param("self", true), Param("light_id", true)];
    var b := Bound(map["light_id" := 7], map[]);
    var b' := Bound(map[], map["light_id" := 107]);
    assert BindParam(sig[0], b, AddHundred, NonZero) == Ok(b);
    assert BindParam(sig[1], b, AddHundred, NonZero) == Ok(b') by {
      assert b.kwargs - {"light_id"} == map[];
    }
    assert sig[1..][1..] == [];
  }

  /** The placeholder loop of the light example takes `light_id` from the body. */
  lemma GetLightResolve()
    ensures ResolveNames(["light_id"], Resolution(map[], map[], map[], map["light_id" := 107]), Double)
            == Ok(Resolution(map["light_id" := 214], map[], map[], map[]))
  {
    var r := Resolution(map[], map[], map[], map["light_id" := 107]);
    var r' := Resolution(map["light_id" := 214], map[], map[], map[]);
    assert ResolveName("light_id", r, Double) == Ok(r') by {
      assert r.data - {"light_id"} == map[];
    }
    assert ["light_id"][1..] == [];
  }

  /** `get_light(self, light_id)` on "/resource/light/{light_id}": the keyword argument is
      required, so it first moves into the body, converted; the placeholder then takes it
      from the body, so the request body ends empty. */
  lemma GetLightRoute()
    ensures RouteArgs([Param("self", true), Param("light_id", true)], LightPath,
                      map["light_id" := 7], map[], map[], AddHundred,
                      Double, NonZero)
            == Ok(Request(map["light_id" := 214], map[], map[]))
  {
    GetLightBind();
    LightPathArgs();
    GetLightResolve();
  }


  /** `get_lights(self, friendly_name=None)` on "/resource/light" with a falsy value: the
      optional argument stays a keyword argument and reaches the body only through the final
      merge, unconverted. */
  lemma GetLightsFalsyRoute()
    ensures RouteArgs([Param("self", true), Param("friendly_name", false)], "/resource/light",
                      map["friendly_name" := 0], map[], map[], AddHundred,
                      Double, NonZero)
            == Ok(Request(map[], map["friendly_name" := 0], map[]))
  {
    var sig := [Param("self", true), Param("friendly_name", false)];
    var b := Bound(map["friendly_name" := 0], map[]);
    assert BindParam(sig[0], b, AddHundred, NonZero) == Ok(b);
    assert BindParam(sig[1], b, AddHundred, NonZero) == Ok(b);
    assert sig[1..][1..] == [];
    assert BindSignature(sig, b, AddHundred, NonZero) == Ok(b);
    NoBraceNoArgs("/resource/light");
  }

  /** `set_entertainment(self, entertainment_id, **kwargs)`: the catch-all has no default,
      so unless a keyword argument literally named "kwargs" is given, the call raises
      TypeError naming it, whatever else is passed. */
  lemma CatchAllRequired()
    ensures RouteArgs([Param("self", true), Param("entertainment_id", true), Param("kwargs", true)],
                      "/resource/entertainment/{entertainment_id}",
                      map["entertainment_id" := 1, "brightness" := 2], map[], map[],
                      AddHundred, Double, NonZero)
            == Err(TypeError("kwargs"))
  {
    var kw := map["entertainment_id" := 1, "brightness" := 2] - {"entertainment_id"};
    assert "kwargs" !in kw;
  }
}

