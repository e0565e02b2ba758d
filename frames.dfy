/** The classification of one received event-stream message by the pattern
      (?=((?P<hello>^HELLO\n\n$)|^id:\s(?P<id>[0-9]+:\d*?)\ndata:(?P<data>[^$]+)\n\n))\1
    which both revisions use with different heartbeat literals HELLO. The pattern is applied
    with `search`, but both alternatives begin with `^`, so only a match at position 0
    counts. Character classes are those of a bytes pattern (ASCII). */
module Frames {
  import opened Results

  /** What one message is: a heartbeat, a data frame with its `id` and `data` groups, or
      neither (the message is then ignored). */
  datatype Frame = Heartbeat | Data(id: string, data: string) | NoMatch

  predicate IsDigit(c: char) { '0' <= c <= '9' }

  /** `\s` of a bytes pattern: space, tab, newline, carriage return, vertical tab, form feed. */
  predicate IsSpace(c: char)
  {
    c == ' ' || c == '\t' || c == '\n' || c == '\r' || c == '\U{000B}' || c == '\U{000C}'
  }

  predicate AllDigits(s: string) { forall k | 0 <= k < |s| :: IsDigit(s[k]) }

  /** A stream cursor as the `id` group admits it: one or more digits, ':', then digits
      (possibly none, since the second run is `\d*?`). */
  predicate IsCursor(id: string)
  {
    exists a | 0 < a < |id| :: id[a] == ':' && AllDigits(id[..a]) && AllDigits(id[a + 1..])
  }

  /** `msg` starts with "id:", one whitespace character, the cursor `id`, "\ndata:", the
      non-empty '$'-free text `data` and a blank line; anything may follow. */
  predicate HasDataFrame(msg: string, id: string, data: string)
  {
    var p := 4 + |id| + 6;
    && |msg| >= p + |data| + 2
    && msg[..3] == "id:" && IsSpace(msg[3])
    && msg[4..4 + |id|] == id && IsCursor(id)
    && msg[4 + |id|..p] == "\ndata:"
    && msg[p..p + |data|] == data && |data| >= 1 && '$' !in data
    && msg[p + |data|..p + |data| + 2] == "\n\n"
  }

  /** End of the run of digits that starts at `i`. */
  function DigitsEnd(s: string, i: nat): (j: nat)
    requires i <= |s|
    ensures i <= j <= |s|
    ensures forall k | i <= k < j :: IsDigit(s[k])
    ensures j < |s| ==> !IsDigit(s[j])
    decreases |s| - i
  {
    if i < |s| && IsDigit(s[i]) then DigitsEnd(s, i + 1) else i
  }

  /** End of the run of characters other than '$' that starts at `i`. */
  function DollarFreeEnd(s: string, i: nat): (j: nat)
    requires i <= |s|
    ensures i <= j <= |s|
    ensures forall k | i <= k < j :: s[k] != '$'
    ensures j < |s| ==> s[j] == '$'
    decreases |s| - i
  {
    if i < |s| && s[i] != '$' then DollarFreeEnd(s, i + 1) else i
  }

  predicate BlankLineAt(s: string, q: nat) { q + 1 < |s| && s[q] == '\n' && s[q + 1] == '\n' }

  /** The largest `q` in [lo, hi] at which a blank line starts: where the greedy `[^$]+`
      stops once backtracking finds "\n\n". */
  function LastBlankLine(s: string, lo: nat, hi: nat): (r: Option<nat>)
    ensures r.Some? ==> lo <= r.value <= hi && BlankLineAt(s, r.value)
    ensures r.Some? ==> forall q | r.value < q <= hi :: !BlankLineAt(s, q)
    ensures r.None? ==> forall q | lo <= q <= hi :: !BlankLineAt(s, q)
    decreases hi
  {
    if hi < lo then None
    else if BlankLineAt(s, hi) then Some(hi)
    else if hi == lo then None
    else LastBlankLine(s, lo, hi - 1)
  }

  /** The data-frame alternative, tried at position 0. */
  function ParseData(msg: string): (r: Frame)
    ensures r != Heartbeat
    ensures r.Data? ==>
              var n := |r.id|;
              && |r.data| >= 1 && 10 + n + |r.data| + 2 <= |msg| && msg[..3] == "id:"
              && msg[4..4 + n] == r.id && msg[4 + n..10 + n] == "\ndata:"
              && msg[10 + n..10 + n + |r.data|] == r.data
  {
    if |msg| < 4 || msg[..3] != "id:" || !IsSpace(msg[3]) then NoMatch
    else
      var a := DigitsEnd(msg, 4);
      if a == 4 || a == |msg| || msg[a] != ':' then NoMatch
      else
        var b := DigitsEnd(msg, a + 1);
        if b + 6 > |msg| || msg[b..b + 6] != "\ndata:" then NoMatch
        else
          var p := b + 6;
          match LastBlankLine(msg, p + 1, DollarFreeEnd(msg, p))
          case None => NoMatch
          case Some(q) => Data(msg[4..b], msg[p..q])
  }

  /** The whole pattern: the heartbeat alternative first (`$` also admits one trailing
      newline), then the data-frame alternative. */
  function Classify(hello: string, msg: string): (r: Frame)
    ensures r == Heartbeat <==> msg == hello + "\n\n" || msg == hello + "\n\n\n"
    ensures r.Data? ==> |r.id| + 4 <= |msg| && msg[4..4 + |r.id|] == r.id
  {
    if msg == hello + "\n\n" || msg == hello + "\n\n\n" then Heartbeat else ParseData(msg)
  }

  /** A message holding a data frame fixes where the pattern's pieces fall: the first digit
      run ends at the cursor's ':', the second at the newline before "data:", and the blank
      line after `data` lies inside the '$'-free run. */
  lemma {:induction false} FramePieces(msg: string, id: string, data: string)
    requires HasDataFrame(msg, id, data)
    ensures var a := DigitsEnd(msg, 4);
            && 4 < a < |msg| && msg[a] == ':'
            && DigitsEnd(msg, a + 1) == 4 + |id|
            && 4 + |id| + 6 + |data| <= DollarFreeEnd(msg, 4 + |id| + 6)
            && BlankLineAt(msg, 4 + |id| + 6 + |data|)
  {
    var p := 4 + |id| + 6;
    var c :| 0 < c < |id| && id[c] == ':' && AllDigits(id[..c]) && AllDigits(id[c + 1..]);
    assert forall k | 4 <= k < 4 + c :: msg[k] == id[..c][k - 4];
    var a := DigitsEnd(msg, 4);
    assert msg[4 + c] == id[c];
    assert a == 4 + c;
    assert forall k | a + 1 <= k < 4 + |id| :: msg[k] == id[c + 1..][k - a - 1];
    assert msg[4 + |id|] == msg[4 + |id|..p][0] == '\n';
    assert forall k | p <= k < p + |data| :: msg[k] == data[k - p];
    assert msg[p + |data|] == msg[p + |data|..p + |data| + 2][0];
    assert msg[p + |data| + 1] == msg[p + |data|..p + |data| + 2][1];
  }

  /** Every data frame the message holds is found, with the same cursor and data at least
      as long: the greedy `data` group. */
  lemma {:induction false} ParseDataComplete(msg: string, id: string, data: string)
    requires HasDataFrame(msg, id, data)
    ensures ParseData(msg).Data?
    ensures ParseData(msg).id == id && |ParseData(msg).data| >= |data|
  {
    FramePieces(msg, id, data);
    var p := 4 + |id| + 6;
    assert msg[4 + |id|..4 + |id| + 6] == "\ndata:";
  }

  /** The text between "id:" plus one whitespace character and the second digit run's end
      is a cursor when the first digit run is non-empty and ends at ':'. */
  lemma {:induction false} CursorBetween(msg: string, a: nat, b: nat)
    requires 4 < a < b <= |msg| && msg[a] == ':'
    requires forall k | 4 <= k < a :: IsDigit(msg[k])
    requires forall k | a + 1 <= k < b :: IsDigit(msg[k])
    ensures IsCursor(msg[4..b])
  {
    var id := msg[4..b];
    var c := a - 4;
    assert id[c] == ':';
    assert AllDigits(id[..c]);
    assert AllDigits(id[c + 1..]);
  }

  /** The data-frame pieces at positions: cursor `msg[4..b]`, "\ndata:" at `b`, data
      `msg[b + 6..q]` free of '$', a blank line at `q`. */
  lemma {:induction false} DataFrameAt(msg: string, b: nat, q: nat)
    requires 4 <= b && b + 6 < q && q + 2 <= |msg|
    requires msg[..3] == "id:" && IsSpace(msg[3]) && IsCursor(msg[4..b])
    requires msg[b..b + 6] == "\ndata:"
    requires forall k | b + 6 <= k < q :: msg[k] != '$'
    requires BlankLineAt(msg, q)
    ensures HasDataFrame(msg, msg[4..b], msg[b + 6..q])
  {
    var data := msg[b + 6..q];
    assert forall k | 0 <= k < |data| :: data[k] == msg[b + 6 + k];
    assert msg[q..q + 2] == "\n\n";
  }

  /** What the data alternative returns is a data frame of the message. */
  lemma {:induction false} ParseDataIsFrame(msg: string)
    requires ParseData(msg).Data?
    ensures HasDataFrame(msg, ParseData(msg).id, ParseData(msg).data)
  {
    var a := DigitsEnd(msg, 4);
    var b := DigitsEnd(msg, a + 1);
    var end := DollarFreeEnd(msg, b + 6);
    var q := LastBlankLine(msg, b + 7, end).value;
    assert ParseData(msg) == Data(msg[4..b], msg[b + 6..q]);
    assert q <= end;
    CursorBetween(msg, a, b);
    DataFrameAt(msg, b, q);
  }

  /** What the data alternative returns is a data frame of the message, and no data frame
      with the same cursor has longer data. */
  lemma {:induction false} ParseDataSound(msg: string)
    requires ParseData(msg).Data?
    ensures HasDataFrame(msg, ParseData(msg).id, ParseData(msg).data)
    ensures forall d :: HasDataFrame(msg, ParseData(msg).id, d) ==> |d| <= |ParseData(msg).data|
  {
    ParseDataIsFrame(msg);
    var f := ParseData(msg);
    forall d | HasDataFrame(msg, f.id, d)
      ensures |d| <= |f.data|
    {
      FramePieces(msg, f.id, d);
    }
  }

  /** The meaning of the whole pattern for a heartbeat literal `hello`: a heartbeat exactly
      for the literal followed by a blank line (and at most one more newline), otherwise the
      longest data frame, otherwise no match exactly when the message holds no data frame. */
  lemma ClassifyMeaning(hello: string, msg: string)
    ensures Classify(hello, msg) == Heartbeat <==> msg == hello + "\n\n" || msg == hello + "\n\n\n"
    ensures Classify(hello, msg).Data? ==>
              var f := Classify(hello, msg);
              HasDataFrame(msg, f.id, f.data) && forall d :: HasDataFrame(msg, f.id, d) ==> |d| <= |f.data|
    ensures Classify(hello, msg) == NoMatch <==>
              && msg != hello + "\n\n" && msg != hello + "\n\n\n"
              && forall id, d :: !HasDataFrame(msg, id, d)
  {
    if ParseData(msg).Data? {
      ParseDataSound(msg);
    }
    forall id, d | HasDataFrame(msg, id, d)
      ensures ParseData(msg).Data?
    {
      ParseDataComplete(msg, id, d);
    }
  }

  /** A data frame as the bridge sends it: cursor "1:0", data " [1]". */
  const SampleFrame := "id: 1:0\ndata: [1]\n\n"

  /** Where the digit runs of the sample end. */
  lemma SampleCursor()
    ensures |SampleFrame| == 19 && SampleFrame[..3] == "id:" && IsSpace(SampleFrame[3])
    ensures DigitsEnd(SampleFrame, 4) == 5 && SampleFrame[5] == ':' && DigitsEnd(SampleFrame, 6) == 7
  {
  }

  /** Where the data of the sample ends. */
  lemma SampleData()
    ensures SampleFrame[7..13] == "\ndata:"
    ensures DollarFreeEnd(SampleFrame, 13) == 19 && LastBlankLine(SampleFrame, 14, 19) == Some(17)
  {
  }

  /** The sample is classified as the data frame it holds. */
  lemma DataFrameExample()
    ensures ParseData(SampleFrame) == Data("1:0", " [1]")
  {
    SampleCursor();
    SampleData();
  }
}
