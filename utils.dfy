/** phlyght/utils.py: the message classifier `MSG_RE_BYTES` / `MSG_RE_TEXT` and the
    handler-name predicate `ENDPOINT_METHOD`. */
module Utils {
  import opened Results
  import opened Frames

  /** The heartbeat literal of this revision's message pattern. */
  const Hello := ": hi"

  /** `MSG_RE_BYTES.search(msg)` (and `MSG_RE_TEXT`, the same pattern on text): a heartbeat
      exactly for ": hi" and a blank line, optionally one more newline; else the data frame
      with the longest '$'-free data; else no match, exactly when no data frame is present. */
  function MessageFrame(msg: string): (f: Frame)
    ensures f == Heartbeat <==> msg == ": hi\n\n" || msg == ": hi\n\n\n"
    ensures f.Data? ==> HasDataFrame(msg, f.id, f.data)
    ensures f.Data? ==> forall d :: HasDataFrame(msg, f.id, d) ==> |d| <= |f.data|
    ensures f == NoMatch <==>
              msg != ": hi\n\n" && msg != ": hi\n\n\n" && forall id, d :: !HasDataFrame(msg, id, d)
  {
    ClassifyMeaning(Hello, msg);
    Classify(Hello, msg)
  }

  /** `\w` restricted to ASCII: letters, digits and '_'. */
  predicate IsWordChar(c: char)
  {
    'a' <= c <= 'z' || 'A' <= c <= 'Z' || '0' <= c <= '9' || c == '_'
  }

  /** End of the run of word characters that starts at `i`. */
  function WordEnd(s: string, i: nat): (j: nat)
    requires i <= |s|
    ensures i <= j <= |s|
    ensures forall k | i <= k < j :: IsWordChar(s[k])
    ensures j < |s| ==> !IsWordChar(s[j])
    decreases |s| - i
  {
    if i < |s| && IsWordChar(s[i]) then WordEnd(s, i + 1) else i
  }

  /** The prefixes of the alternation, in the order the pattern tries them. */
  const Verbs: seq<string> := ["get", "set", "create", "delete"]

  /** One alternative `verb\w+` at position 0: the verb and the greedy run of word characters
      after it, when at least one follows. */
  function VerbMatch(name: string, verb: string): (r: Option<string>)
    ensures r.Some? <==> |name| > |verb| && name[..|verb|] == verb && IsWordChar(name[|verb|])
    ensures r.Some? ==>
              && |verb| < |r.value| <= |name| && name[..|r.value|] == r.value
              && r.value[..|verb|] == verb
              && (forall k | |verb| <= k < |r.value| :: IsWordChar(name[k]))
              && (|r.value| == |name| || !IsWordChar(name[|r.value|]))
  {
    if |name| > |verb| && name[..|verb|] == verb && IsWordChar(name[|verb|])
    then Some(name[..WordEnd(name, |verb|)])
    else None
  }

  /** The alternatives tried in order; the first that matches gives group 1. */
  function FirstVerbMatch(name: string, verbs: seq<string>): (r: Option<string>)
    ensures r.Some? <==> exists v | v in verbs :: VerbMatch(name, v).Some?
    ensures r.Some? ==> exists v | v in verbs :: VerbMatch(name, v) == r
  {
    if verbs == [] then None
    else match VerbMatch(name, verbs[0])
      case Some(g) => Some(g)
      case None => FirstVerbMatch(name, verbs[1..])
  }

  /** `ENDPOINT_METHOD.match(name)`: matches exactly when `name` starts with get, set, create
      or delete followed by at least one word character; group 1 is then that verb with the
      longest run of word characters after it. */
  function EndpointMethod(name: string): (r: Option<string>)
    ensures r.Some? <==>
              exists v | v in Verbs :: |name| > |v| && name[..|v|] == v && IsWordChar(name[|v|])
    ensures r.Some? ==>
              && |r.value| <= |name| && name[..|r.value|] == r.value
              && (exists v | v in Verbs ::
                    && |r.value| > |v| && r.value[..|v|] == v
                    && forall k | |v| <= k < |r.value| :: IsWordChar(name[k]))
              && (|r.value| == |name| || !IsWordChar(name[|r.value|]))
  {
    FirstVerbMatch(name, Verbs)
  }

  /** Handler names the metaclass picks up: the whole name is group 1. */
  lemma EndpointMethodMatches()
    ensures EndpointMethod("get_lights") == Some("get_lights")
    ensures EndpointMethod("set_light") == Some("set_light")
  {
    var a, b := "get_lights", "set_light";
    assert a[..3] == "get" && IsWordChar(a[3]);
    assert WordEnd(a, 3) == |a| by {
      assert forall k | 3 <= k < |a| :: IsWordChar(a[k]);
    }
    assert a[..|a|] == a;
    assert VerbMatch(a, "get") == Some(a);
    assert b[..3] != "get" by { assert b[0] != 'g'; }
    assert b[..3] == "set" && IsWordChar(b[3]);
    assert WordEnd(b, 3) == |b| by {
      assert forall k | 3 <= k < |b| :: IsWordChar(b[k]);
    }
    assert b[..|b|] == b;
    assert VerbMatch(b, "set") == Some(b);
  }

  /** Names the metaclass leaves alone: a bare verb, and a dunder method. */
  lemma EndpointMethodRejects()
    ensures EndpointMethod("get") == None
    ensures EndpointMethod("__init__") == None
  {
    var c := "__init__";
    assert VerbMatch(c, "get") == None by { assert c[0] != 'g'; }
    assert VerbMatch(c, "set") == None by { assert c[0] != 's'; }
    assert VerbMatch(c, "create") == None by { assert c[0] != 'c'; }
    assert VerbMatch(c, "delete") == None by { assert c[0] != 'd'; }
  }

  /** The heartbeat of this revision, and the heartbeat of the earlier one, which this
      pattern does not recognise. */
  lemma HeartbeatExamples()
    ensures MessageFrame(": hi\n\n") == Heartbeat
    ensures MessageFrame("hi\n\n") == NoMatch
  {
    assert forall id, d :: !HasDataFrame("hi\n\n", id, d);
  }

  /** A data frame as the bridge sends it is classified as such. */
  lemma DataFrameExampleClassified()
    ensures MessageFrame(SampleFrame) == Data("1:0", " [1]")
  {
    assert SampleFrame[0] != (Hello + "\n\n")[0];
    DataFrameExample();
  }
}
