# phlyght core, modelled in Dafny

phlyght is an asynchronous client for the Philips Hue v2 bridge. This project models the
parts of it that decide what the client does with data:

- **The bounded "LRU" set.** Its entries are values stamped with the second at which they
  were wrapped. It exists in two revisions. The final one, in `phlyght/utils.py`, evicts the
  *newest* entries when an insertion overflows, because it reverses the sort before slicing.
  The earlier one, in `phlyght/http.py`, is the router's cache and evicts the *oldest*
  entries. Both are classes (`UtilsLru.LRU`, `HttpLru.LRU`) whose methods update a
  `set<Entry<V>>` field in place. The eviction rules they share are in `Eviction`.
- **The event-stream message classifiers.** These are `MSG_RE_BYTES`/`MSG_RE_TEXT`
  (heartbeat ": hi") and the earlier `MSG_RE` (heartbeat "hi"). `Frames` decides, for every
  message, whether it is a heartbeat, a data frame (cursor and greedy data) or no match.
  `Utils.MessageFrame` and `Http.MessageFrame` state that result as an if-and-only-if.
- **The read loop of `Router._subscribe`.** `Json` models `for x in v` and `v["key"]` on
  decoded values, and `Payload` models the double loop that turns a decoded payload into
  records, including the first exception it raises. `Http.Router.HandleMessage` adds those
  records to the cache one `add` at a time.
- **`get_url_args` and `route`.** `Api` models the placeholder pattern `STR_FMT_RE` with its
  greedy backtracking. Because `m.groups()` always has three entries, every converter is
  `str`. A template with two placeholders yields one name that swallows the text between
  them (`Api.TwoPlaceholdersArgs`). Argument resolution is a pair of loops over maps:
  signature parameters first, placeholders second, then the merge of leftover keyword
  arguments into the body. Each loop is proved equal to a recursive definition, and lemmas
  state when each loop raises and where every value ends up. `Http.Router.Route` adds this
  revision's "headers" pop and the bridge-address check.
- **`IP_RE`.** The lookbehind alternation of `IP_RE` has an empty branch, so it never stops a
  match. `Http.BridgeHost` is therefore the first dotted quad of the address, taken at its
  longest. It raises ValueError exactly when the address holds no quad.
- **`ENDPOINT_METHOD`.** The handler-name pattern is `Utils.EndpointMethod`.

Values the program takes from the environment become parameters:
- the clock (`int(time())`) is `now`;
- the JSON decoder is `loads`;
- the model-class table `TYPE_CACHE` is the set of type names `tags`;
- the converters of `route` are `convert`, `toStr` and `truthy`;
- the subscription that `subscribe` would create is `next`.

## Model

| member | source | states |
|---|---|---|
| Eviction.NewestExists | phlyght/utils.py:163-167 | every non-empty set of entries has an entry no other entry is newer than, so taking the newest is always possible |
| Eviction.OldestExists | phlyght/http.py:84-88 | every non-empty set of entries has an oldest entry |
| Eviction.SelectNewest | phlyght/utils.py:163-169 | returns `min(k, len)` entries of the set such that no entry left behind is newer than any taken |
| Eviction.SelectOldest | phlyght/http.py:84-88 | returns `min(k, len)` entries of the set such that no entry left behind is older than any taken |
| Eviction.Stamped | phlyght/utils.py:189 | the entries wrapped from `items` at one instant: one per distinct item, all stamped `now`, each item present, never more entries than items |
| Eviction.StampedSnoc | phlyght/utils.py:189 | wrapping one more item adds exactly its entry |
| Eviction.SubsetOfSameSize | phlyght/utils.py:163-170 | a subset as large as the set is the set, so an eviction count of at least `len` removes every entry |
| Eviction.AddWithinCapacity | phlyght/utils.py:161-171 | with `maxsize >= 1`, whatever set of the requested size an overflowing `add` evicts, the result is within capacity, even when the set started over-full |
| Eviction.ExtendWithinCapacity | phlyght/utils.py:179-189 | when `extend` brings at most `maxsize` items, the result is within capacity |
| Eviction.ExtendPastCapacity | phlyght/utils.py:179-189 | when `extend` brings more than `maxsize` items, every existing entry is evicted and only the new entries remain |
| Eviction.RemoveByValue | phlyght/utils.py:176-177 | succeeds exactly when one entry holds the value, then removes that entry and nothing else; TypeError otherwise |
| Eviction.SingleMatch | phlyght/utils.py:176-177 | exactly one matching entry in the filter is the same as the filter having size one |
| UtilsLru.LRU.New | phlyght/utils.py:154-159 | a negative `maxsize` raises ValueError from the deque; otherwise the set holds the first `maxsize` items, stamped, with nothing evicted |
| UtilsLru.LRU.constructor | phlyght/utils.py:154-159 | the set holds exactly the entries of `items[:maxsize]` |
| UtilsLru.LRU.AddNextFitting | phlyght/utils.py:158-159 | one turn of the constructor's loop adds the next item's entry and evicts nothing |
| UtilsLru.LRU.AddFitting | phlyght/utils.py:161-171 | an `add` that fits evicts nothing and adds the new entry |
| UtilsLru.LRU.Add | phlyght/utils.py:161-171 | evicts the `len + 1 - maxsize` newest entries when overflowing (none otherwise), inserts the new entry, keeps `maxsize`, and with `maxsize >= 1` ends within capacity |
| UtilsLru.LRU.Pop | phlyght/utils.py:173-174 | removes exactly one entry; on an empty set raises KeyError and changes nothing |
| UtilsLru.LRU.Remove | phlyght/utils.py:176-177 | the new set is `RemoveByValue` of the old one; on TypeError nothing changes |
| UtilsLru.LRU.Extend | phlyght/utils.py:179-189 | one eviction of the newest entries sized to the total overflow, then the union with all new entries; bounded only while the new items alone fit |
| HttpLru.SlicePrefix | phlyght/http.py:79 | `items[:m]` with Python slice semantics, including negative `m` |
| HttpLru.LRU.constructor | phlyght/http.py:76-80 | with `maxsize >= 0` the set holds the entries of `items[:maxsize]`; with a negative `maxsize` it holds only the entry of the slice's last item |
| HttpLru.LRU.AddAllBelowCapacity | phlyght/http.py:79-80 | the constructor's loop when the slice fits ends holding exactly its stamped items |
| HttpLru.LRU.AddNextFitting | phlyght/http.py:79-80 | one turn of that loop adds the next item's entry and evicts nothing |
| HttpLru.LRU.AddFitting | phlyght/http.py:82-90 | an `add` that fits evicts nothing and adds the new entry |
| HttpLru.LRU.AddAllNegative | phlyght/http.py:79-80 | with negative `maxsize` every `add` evicts all existing entries, so only the last item's entry remains |
| HttpLru.LRU.Add | phlyght/http.py:82-90 | evicts the `len + 1 - maxsize` oldest entries when overflowing, inserts the new entry, keeps `maxsize`, and with `maxsize >= 1` ends within capacity |
| HttpLru.LRU.Pop | phlyght/http.py:92-93 | removes exactly one entry; KeyError on an empty set |
| HttpLru.LRU.Remove | phlyght/http.py:95-96 | the new set is `RemoveByValue` of the old one; on TypeError nothing changes |
| HttpLru.LRU.Extend | phlyght/http.py:98-104 | one eviction of the oldest entries sized to the total overflow, then the union with all new entries |
| Frames.DigitsEnd | phlyght/utils.py:48 | the end of the maximal run of ASCII digits starting at `i` |
| Frames.DollarFreeEnd | phlyght/utils.py:48 | the end of the maximal run without '$' starting at `i` |
| Frames.LastBlankLine | phlyght/utils.py:48 | the last position in a range where "\n\n" starts, or none at all: where greedy `[^$]+` backtracks to |
| Frames.FramePieces | phlyght/utils.py:48 | a data frame's cursor is exactly the two digit runs the matcher reads, and its data lies within the '$'-free run and ends at a blank line |
| Frames.ParseDataComplete | phlyght/utils.py:48 | every data frame the message holds is found, with the same cursor and data at least as long |
| Frames.CursorBetween | phlyght/utils.py:48 | digits, ':' and digits read from position 4 form a cursor `[0-9]+:\d*` |
| Frames.DataFrameAt | phlyght/utils.py:48 | the pieces found at their positions make a data frame of the message |
| Frames.ParseData | phlyght/utils.py:48 | the data alternative never yields a heartbeat; a data frame it returns lies where the pattern puts it: "id:", a space, the cursor, "\ndata:", then non-empty data and a blank line after it (longest data: `ParseDataSound`; every frame found: `ParseDataComplete`) |
| Frames.ParseDataIsFrame | phlyght/utils.py:48 | what the data alternative returns is a data frame of the message |
| Frames.ParseDataSound | phlyght/utils.py:48 | the returned data frame is real and has the longest data for its cursor |
| Frames.ClassifyMeaning | phlyght/utils.py:47-52 | heartbeat iff the message is the literal plus a blank line (and at most one more newline); otherwise the longest data frame; no match iff there is no data frame |
| Frames.Classify | phlyght/utils.py:47-52 | heartbeat iff the message is the literal plus a blank line (and at most one more newline); a data frame's cursor is read from position 4 (the rest: `ClassifyMeaning`) |
| Frames.SampleCursor | phlyght/utils.py:48 | the cursor of a sample frame is read as "1:0" |
| Frames.SampleData | phlyght/utils.py:48 | the data of a sample frame runs to its closing blank line |
| Frames.DataFrameExample | phlyght/utils.py:48 | the sample frame parses to cursor "1:0" and data " [1]" |
| Utils.MessageFrame | phlyght/utils.py:47-52 | `MSG_RE_BYTES`/`MSG_RE_TEXT` search: heartbeat iff ": hi\n\n" (or with one more newline), otherwise the longest data frame, and no match iff there is no data frame |
| Utils.WordEnd | phlyght/utils.py:40 | the end of the maximal run of `\w` characters from `i` |
| Utils.VerbMatch | phlyght/utils.py:40 | one alternative `verb\w+`: matches iff the name starts with the verb and a word character follows; the match is a prefix of the name made of the verb and then word characters only, ending at a non-word character or at the end |
| Utils.FirstVerbMatch | phlyght/utils.py:40 | the alternation matches iff some alternative does, and returns one alternative's match |
| Utils.EndpointMethod | phlyght/utils.py:40 | `ENDPOINT_METHOD.match`: matches iff the name starts with get/set/create/delete followed by a word character; group 1 is a prefix of the name made of one of the verbs and then word characters only, ending at a non-word character or at the end |
| Utils.EndpointMethodMatches | phlyght/utils.py:40 | "get_lights" and "set_light" match in full |
| Utils.EndpointMethodRejects | phlyght/utils.py:40 | the bare verb "get" and "__init__" do not match |
| Utils.HeartbeatExamples | phlyght/utils.py:49 | ": hi\n\n" is a heartbeat; the earlier heartbeat "hi\n\n" is no match |
| Utils.DataFrameExampleClassified | phlyght/utils.py:47-52 | a bridge data frame is classified with its cursor and data |
| Json.Lookup | phlyght/http.py:783 | the value of a dict member by key, present iff some member has the key; of a repeated key, the last value, as the decoder keeps it |
| Json.LookupPastLast | phlyght/http.py:783 | a last member with another key leaves the lookup unchanged |
| Json.Elements | phlyght/http.py:782-783 | `for x in v`: a list's items, a string's characters, a dict's keys; TypeError exactly for None, booleans and numbers |
| Json.Subscript | phlyght/http.py:783-784 | `v["key"]`: only a dict answers, KeyError when it lacks the key; TypeError for anything that is not a dict |
| Payload.TypeTag | phlyght/http.py:784 | `TYPE_CACHE[t]`: succeeds iff `t` is a string the table holds; KeyError for a missing hashable key, TypeError for a list or dict |
| Payload.Record | phlyght/http.py:784 | one object gives one record exactly when it is a dict with a known string "type"; otherwise no record and the exception raised |
| Payload.ObjectRecords | phlyght/http.py:783-784 | the inner loop adds at most one record per object, each of a known type built from a dict |
| Payload.EventRecords | phlyght/http.py:783-784 | every record one event adds has a known type and was built from a dict |
| Payload.EventsRecords | phlyght/http.py:782-784 | every record the outer loop adds has a known type and was built from a dict |
| Payload.Flatten | phlyght/http.py:782-784 | every record the whole loop adds has a known type and was built from a dict |
| Payload.FirstUnknown | phlyght/http.py:784 | the first position whose type the table lacks: all earlier types are known |
| Payload.FirstUnknownUnique | phlyght/http.py:784 | the first unknown position is the only one with every earlier type known and its own type unknown (or the end) |
| Payload.ThenUpToUnknown | phlyght/http.py:782-784 | running records `a` and then `b` with stop-at-first-error is running `a + b` |
| Payload.ObjectRecordsShaped | phlyght/http.py:783-784 | on shaped objects the inner loop adds records up to the first unknown type and raises KeyError there |
| Payload.EventsRecordsShaped | phlyght/http.py:782-784 | on shaped events the same holds event by event |
| Payload.FlattenShaped | phlyght/http.py:782-784 | on a payload of the bridge's shape the loop adds every object's record in event order, then object order, up to the first unknown type, and raises KeyError naming it; with all types known it adds all and raises nothing |
| Payload.StringEventsRaise | phlyght/http.py:782-783 | string events raise TypeError at the first `event["data"]`, before any record |
| Payload.FlattenNonList | phlyght/http.py:779-784 | a decoded payload that is not a list adds no records: scalars raise, a non-empty string or dict raises TypeError, an empty one raises nothing |
| Api.NextChar | phlyght/api.py:24 | the first index at or after `i` holding a character, or the end |
| Api.LastBefore | phlyght/api.py:24 | the last index in a range holding a character, or none |
| Api.Avoids | phlyght/api.py:24 | a slice of a stretch free of a character does not contain it |
| Api.NextCharAt | phlyght/api.py:24 | the first index of a character from a position is the one where it occurs with no earlier occurrence |
| Api.ReadingsAt | phlyght/api.py:24 | a plain reading `{name}` ends before the first ':' after the brace; a typed reading `{name:type}` has its ':' there and its '}' at the first one after it |
| Api.MatchAt | phlyght/api.py:24 | what the pattern matches at `{` is a reading: a plain `{name}` (`PlainAt`) or a typed `{name:type}` (`TypedAt`), with a non-empty name free of ':' and a non-empty type free of `}` |
| Api.FindAll | phlyght/api.py:30 | `finditer` yields matches with non-empty ':'-free names, each ending past the start position and within the string, with strictly increasing ends, so they never overlap (which matches: `FindAllNone`, `FindAllFirst`) |
| Api.MatchAtChoice | phlyght/api.py:24 | the greedy choice: a typed reading, when there is one, is the match; otherwise the plain reading with the longest name; there is a match whenever there is any reading |
| Api.SkipNoBrace | phlyght/api.py:30 | `finditer` finds nothing in a stretch without '{' |
| Api.FindAllNone | phlyght/api.py:30 | with no match from a position on, `finditer` yields nothing |
| Api.FindAllFirst | phlyght/api.py:30 | `finditer` yields first the match at the left-most position where the pattern matches, then resumes where that match ends, so matches never overlap |
| Api.Names | phlyght/api.py:31-32 | group 2 of each match, in order |
| Api.IndexOf | phlyght/api.py:37 | the index of the first occurrence of an element |
| Api.IndexOfSnoc | phlyght/api.py:37 | appending an element moves no first occurrence; a new element first occurs at the end |
| Api.Dedup | phlyght/api.py:37 | the keys of a dict filled in a given order: the same elements, each once, ordered by first occurrence |
| Api.UrlArgNames | phlyght/api.py:28-38 | the keys of `get_url_args`: distinct, each a non-empty name free of ':' (membership and order: `Dedup`) |
| Api.DedupSnocKeeps | phlyght/api.py:37 | filling one more key keeps those three properties |
| Api.DedupStep | phlyght/api.py:37 | filling the key at an index appends it exactly when it is new |
| Api.DedupExample | phlyght/api.py:37 | filling "b", "a", "b" gives the keys "b", "a" |
| Api.SetStr | phlyght/api.py:37 | `kwds[name] = str`: the name is appended to the keys exactly when it is new, and the dict maps exactly the keys, each to `str` |
| Api.GetUrlArgs | phlyght/api.py:28-38 | the keys are `UrlArgNames`: the group-2 names of the `finditer` matches, each once, in first-occurrence order; every converter is `str` |
| Api.NoBraceNoArgs | phlyght/api.py:28-38 | a template without '{' has no placeholders |
| Api.OnePlaceholderMatch | phlyght/api.py:24 | at the brace of `{name}`, with no ':' or '}' in the name and no '}' after it, the match is the plain reading `name` |
| Api.OnePlaceholderArgs | phlyght/api.py:28-38 | a template with one placeholder `{name}` (no ':' or '}' in the name, no '{' before it, no brace after it) has exactly the argument `name` |
| Api.LightPathMatch | phlyght/api.py:234 | "{light_id}" matches with name "light_id" and no type |
| Api.LightPathArgs | phlyght/api.py:234 | "/resource/light/{light_id}" has the single placeholder "light_id" |
| Api.TypedPathMatch | phlyght/api.py:24 | "{x:int}" matches with name "x" and type "int" |
| Api.TypedPathArgs | phlyght/api.py:28-38 | "{x:int}" yields the name "x" with converter `str` |
| Api.TwoPlaceholdersMatch | phlyght/api.py:24 | in "/a/{x}/b/{y}" the greedy name runs to the last '}' |
| Api.TwoPlaceholdersArgs | phlyght/api.py:28-38 | "/a/{x}/b/{y}" yields the single name "x}/b/{y" |
| Api.Merge | phlyght/api.py:129-131 | `data \| kwargs if data else kwargs`: the union of both, keyword arguments winning |
| Api.MovedNames | phlyght/api.py:106-116 | the names that move out of the keyword arguments are keyword arguments |
| Api.BindLoop | phlyght/api.py:88-116 | the signature loop over mutable dicts computes `BindSignature` |
| Api.BindParam | phlyght/api.py:88-116 | one parameter: TypeError only for a required parameter missing from both kwargs and body; otherwise names only move from kwargs into the body, none lost and none added |
| Api.BindSignature | phlyght/api.py:88-116 | the whole signature loop only moves names from kwargs into the body, losing none and adding none (when it fails: `BindSignatureFails`; what moves: `BindSignaturePlaces`) |
| Api.ResolveName | phlyght/api.py:119-127 | ValueError iff the placeholder is in none of kwargs, params and body; otherwise it joins the URL arguments, and the three sources only shrink |
| Api.ResolveNames | phlyght/api.py:118-127 | when the loop completes, every placeholder is a URL argument, earlier URL arguments stay, and the sources only shrink (failure, values, pops: `ResolveNamesFails`, `ResolveNamesValue`, `ResolveNamesPops`) |
| Api.RouteArgs | phlyght/api.py:86-133 | a request the wrapper builds binds every placeholder of the endpoint, keeps only query parameters that were passed, and has a body holding only names from the body or the keyword arguments passed in |
| Api.ResolveLoop | phlyght/api.py:118-127 | the placeholder loop over mutable dicts computes `ResolveNames` |
| Api.Resolve | phlyght/api.py:86-133 | the wrapper up to the request computes `RouteArgs`: signature loop, `get_url_args`, placeholder loop, merge |
| Api.BindSignatureFails | phlyght/api.py:106-110 | the signature loop raises TypeError iff some required parameter is in neither kwargs nor body, and names the first such one |
| Api.BindSignaturePlaces | phlyght/api.py:106-116 | after the loop: kwargs lose exactly the moved names (required ones, and optional ones with truthy values); the body gains them converted and keeps everything else |
| Api.ResolveNamesFails | phlyght/api.py:119-121 | the placeholder loop raises ValueError iff some placeholder is in none of kwargs, params and body, and names the first such one |
| Api.HeadNotInTail | phlyght/api.py:119 | the dict keys of `get_url_args` are visited once each |
| Api.ResolveNamesKeys | phlyght/api.py:118-127 | the resolved arguments are exactly the placeholders |
| Api.ResolveNamesValue | phlyght/api.py:122-127 | each placeholder takes `str` of its kwargs value, else its params value, else its body value |
| Api.ResolveNamesValues | phlyght/api.py:122-127 | the same for every placeholder at once |
| Api.ResolveNamesPops | phlyght/api.py:122-127 | a source loses exactly the placeholders taken from it, with the earlier source winning, and keeps its other values |
| Api.GetLightRoute | phlyght/api.py:234-236 | `get_light(light_id=…)`: the argument moves into the body converted, then the placeholder takes it, leaving the body empty |
| Api.GetLightsFalsyRoute | phlyght/api.py:229-231 | `get_lights(friendly_name=<falsy>)`: the optional argument does not move and reaches the body unconverted through the merge |
| Api.CatchAllRequired | phlyght/api.py:626-628 | a handler with `**kwargs` raises TypeError("kwargs") because the catch-all counts as required |
| Http.MessageFrame | phlyght/http.py:35-37 | `MSG_RE.search`: heartbeat iff "hi\n\n" (or with one more newline), otherwise the longest data frame, and no match iff there is no data frame |
| Http.HeartbeatExamples | phlyght/http.py:36 | "hi\n\n" is a heartbeat; the final revision's ": hi\n\n" is no match |
| Http.PayloadOf | phlyght/http.py:771-779 | a message that is not a data frame iterates over `[]`; a data frame's data goes through `loads`, and a decoding failure raises ValueError |
| Http.QuietMessagesAddNothing | phlyght/http.py:771-784 | a heartbeat or unmatched message adds nothing and raises nothing |
| Http.CacheAfterAddsStep | phlyght/http.py:782-784 | one more cache `add` keeps the summary relation between the cache and the records inserted so far |
| Http.CacheAfterAdds | phlyght/http.py:782-784 | the cache after inserting the records: only old entries and stamped records, the last record present, bounded by a positive capacity, nothing evicted while all fit; so it is non-empty after any insert and keeps every old entry while all fit |
| Http.AddsAt | phlyght/http.py:82-90 | the oldest-first `add` of the record at an index extends the chain of adds of the records before it |
| Http.AddsInOrderCache | phlyght/http.py:782-784 | a chain of oldest-first adds leaves only old entries and new records, holds the last record, is bounded by a positive capacity, and evicts nothing while everything fits |
| Http.OneAddFits | phlyght/http.py:82-90 | an `add` that fits evicts nothing |
| Http.OldestOfTwo | phlyght/http.py:84-88 | of two entries with different stamps, the one evicted first is the older |
| Http.OldestFirstExample | phlyght/http.py:82-90 | with capacity two, adding `b` then `c` (stamped 5) to `{a@0}` leaves exactly `{b@5, c@5}` |
| Http.FitsEvictsNothing | phlyght/http.py:82-90 | while everything fits, the cache is the old contents plus the inserted records and has room for one more |
| Http.QuadSlice | phlyght/http.py:33 | a quad between two positions is a quad once cut out |
| Http.QuadAtSound | phlyght/http.py:33 | what the group matches at a position is a dotted quad |
| Http.QuadAt | phlyght/http.py:33 | the group matched at `i` spans at least three characters, lies within the string, and holds only digits and dots (a quad: `QuadAtSound`; the longest: `QuadAtComplete`) |
| Http.RunEnd | phlyght/http.py:33 | a digit run stopping at a non-digit ends there |
| Http.QuadAtFromRuns | phlyght/http.py:33 | the group matches at `i` when its three dot-terminated runs and its last run are short enough |
| Http.QuadAtComplete | phlyght/http.py:33 | every quad starting at a position is matched there, and the match is at least as long |
| Http.SearchQuad | phlyght/http.py:203 | `IP_RE.search`: the first position where the group matches, with none earlier |
| Http.SearchQuadNone | phlyght/http.py:203-205 | no match means the address holds no quad |
| Http.SearchQuadSome | phlyght/http.py:203 | the match is the first quad at its longest |
| Http.BridgeHost | phlyght/http.py:203-205 | raises ValueError("Invalid bridge ip …") iff the address holds no dotted quad; otherwise the host is a quad, the first in the address, taken at its longest |
| Http.LongRunRuns | phlyght/http.py:33 | the digit runs and dots of "1234.5.6.7" as the group reads them |
| Http.BridgeHostExamples | phlyght/http.py:33 | "1234.5.6.7" yields the host "234.5.6.7", so the lookbehind does not demand a non-digit before the quad; "" raises ValueError |
| Http.Router.constructor | phlyght/http.py:748-755 | no subscription, the address `bridge_ip or ""`, an empty fresh cache of capacity `max_cache_size` |
| Http.Router.Subscribe | phlyght/http.py:757-759 | a task starts iff there is no subscription or it is done; otherwise nothing changes |
| Http.Router.AddAll | phlyght/http.py:782-784 | the cache results from the old one by one oldest-first `add` per record, in order (`AddsInOrder`) |
| Http.Router.AddStep | phlyght/http.py:784 | the `add` of the next record extends that chain by one oldest-first `add` |
| Http.Router.HandleMessage | phlyght/http.py:770-784 | per message: a decoding error adds nothing; otherwise exactly the records `Flatten` yields are added in order, one oldest-first `add` each, and its first exception is the outcome |
| Http.Router.Route | phlyght/http.py:141-205 | pops "headers", resolves the rest as `RouteArgs`, then checks the bridge address; the first error wins |

## Left out

- Unicode classes: `\d`, `\s` and `\w` are ASCII here, while `MSG_RE_TEXT` and `ENDPOINT_METHOD` are text patterns that also accept non-ASCII digits, spaces and letters. Messages are characters, not bytes.
- The `IP_RE` of `phlyght/utils.py` (host names, `[a-z]{2,}`) is not part of this model; `route` uses the one in `phlyght/http.py`.
- Entry identity: `LRUItem` hashes by its value (`value.id` in `phlyght/http.py`), but the set uses full equality. The model compares value and stamp.
- HttpLru.LRU.constructor, UtilsLru.LRU.constructor: both `__init__`s pass an already-wrapped `LRUItem` to `add`, which wraps it again. The model follows the single wrap the code evidently intends, so the entries hold the items themselves. As written, the double wrap is observable. In `phlyght/http.py` the outer entry's hash reads `.id` of the inner `LRUItem`, which has none, so `LRU(...)` raises AttributeError whenever `items[:maxsize]` is non-empty. In `phlyght/utils.py` an entry made by the constructor holds an `LRUItem` as its value, so `remove(item)` matches none of them and raises TypeError, where the model removes it.
- UtilsLru.LRU.Add, UtilsLru.LRU.Extend, HttpLru.LRU.Add, HttpLru.LRU.Extend: hashing an entry hashes its value (`phlyght/utils.py`) or the value's `.id` (`phlyght/http.py`), so an unhashable value, or a value without `.id`, raises TypeError or AttributeError. The model's values are always hashable and never raise.
- The unused `deque` of the final revision beyond its `maxlen` check, and the exact text of the exceptions: KeyError/TypeError/ValueError carry only a key or a short message.
- Ties between equal stamps: the model allows any choice among equally old (or new) entries, where Python's stable sort picks by iteration order of the set.
- Building a model class from an object (`TYPE_CACHE[...](**ob)`, pydantic validation) is not modelled; a record is the type name and the object.
- Payload.TypeTag: the table is assumed to be keyed by type names, given as the parameter `tags`. The table `phlyght/http.py` builds is keyed by each class's `__fields__["type"].default`. The classes of `models.py` declare `type: Literal[...]` without a default, which pydantic reads as None, so that table is `{None: <last class>}`. With it, every string type raises KeyError and an object with `"type": null` passes the lookup. The model cannot express a None key.
- `print(len(self.cache))`, the asyncio task, the reconnect on `ReadTimeout` and the HTTP stream are I/O. `HandleMessage` models one message with one clock value.
- `loads` is a parameter; decoded numbers are integers.
- The `id_` group is read but never used, so it is not returned.
- Handler annotations (`type_`), `str` and truthiness are the parameters `convert`, `toStr` and `truthy`, assumed not to raise.
- URL building (`URL(...) / endpoint.format(**url_args)`), the HTTP request and `ret_cls` are not modelled; `route` returns its resolved arguments, the host and the headers.
- `get_data_fields`, `RouterMeta`, `SubRouter`, the `URL` subclass and `models.py` are not part of this model.
- The caller's `data`/`params` dicts are updated in place by `route`; the model works on map values, so that aliasing is not captured.
- Eviction.Stamped, UtilsLru.LRU.Extend, HttpLru.LRU.Extend, both constructors and Http.Router.HandleMessage: one clock value `now` stamps every item of a call, where each `LRUItem` reads `int(time())` itself. Items wrapped across a second boundary get different stamps in the source, which the model does not capture.
- Json.Elements: iterating over an object whose decoded text repeats a key lists the key once per member; the decoded dict holds it once.
