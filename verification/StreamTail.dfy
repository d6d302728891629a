/** What a stream loses that ends in the middle of a line: the line buffer only hands on
    complete lines (crates/openclaw-agent/src/llm/streaming.rs:78-82), so a last line
    without its newline is dropped. */
module StreamTail {
  import opened Common
  import opened LineBuffer
  import opened Streaming

  lemma {:induction false} TailLines(text: string, tail: string)
    requires Rest(text) == "" && FirstNewline(tail) == |tail|
    ensures CompleteLines(text + tail) == CompleteLines(text)
    ensures CompleteLines(text + tail + "\n") == CompleteLines(text) + [tail]
  {
    OneLine(tail);
    ReadInTwoSteps(text, tail);
    ReadInTwoSteps(text, tail + "\n");
    assert "" + tail == tail && "" + (tail + "\n") == tail + "\n";
    assert CompleteLines(text) + [] == CompleteLines(text);
    ConcatAssociative(text, tail, "\n");
  }

  lemma {:induction false} OneLine(tail: string)
    requires FirstNewline(tail) == |tail|
    ensures CompleteLines(tail) == [] && CompleteLines(tail + "\n") == [tail]
  {
    var line := tail + "\n";
    FirstNewlineUnique(line, |tail|);
    LinesStep(line);
    assert line[..|tail|] == tail && line[|tail| + 1..] == "";
    assert FirstNewline("") == 0;
  }

  lemma {:induction false} TailApplied(parse: string -> Option<StreamChunk>, text: string, tail: string)
    requires Rest(text) == "" && FirstNewline(tail) == |tail|
    ensures var a := WithLines(parse, EMPTY, CompleteLines(text));
            && WithLines(parse, EMPTY, CompleteLines(text + tail)) == a
            && WithLines(parse, EMPTY, CompleteLines(text + tail + "\n")) == WithLine(parse, a, tail)
  {
    TailLines(text, tail);
    WithLinesConcat(parse, EMPTY, CompleteLines(text), [tail]);
    assert [tail][1..] == [];
  }

  // ----- Chunks that say nothing -----

  /** The delta starts no call, names none and adds no arguments. */
  predicate Quiet(d: ToolCallDelta, width: nat) {
    d.index < width && (d.func.Some? ==> d.func.value.name.None? && d.func.value.arguments.GetOr("") == "")
  }

  predicate AllQuiet(ds: seq<ToolCallDelta>, width: nat) {
    forall k :: 0 <= k < |ds| ==> Quiet(ds[k], width)
  }

  /** The ids given leave every call with the id it has. */
  predicate KeepsIds(calls: seq<PartialCall>, ds: seq<ToolCallDelta>) {
    forall i :: 0 <= i < |calls| ==> LastId(ds, i).GetOr(calls[i].id) == calls[i].id
  }

  predicate SaysNothing(a: Assembly, d: Delta) {
    && d.content.None? && d.reasoning.None?
    && AllQuiet(d.toolCalls.GetOr([]), |a.toolCalls|) && KeepsIds(a.toolCalls, d.toolCalls.GetOr([]))
  }

  predicate ChunkSaysNothing(a: Assembly, c: StreamChunk) {
    (c.choices == [] || SaysNothing(a, c.choices[0])) && c.usage.GetOr(a.usage) == a.usage
  }

  /** Nothing gets shorter. */
  ghost predicate Grows(a: Assembly, b: Assembly) {
    && |a.events| <= |b.events| && |a.toolCalls| <= |b.toolCalls|
    && forall i :: 0 <= i < |a.toolCalls| ==> |a.toolCalls[i].arguments| <= |b.toolCalls[i].arguments|
  }

  ghost predicate SameSize(a: Assembly, b: Assembly) {
    Grows(a, b) && Grows(b, a)
  }

  lemma {:induction false} DeltaGrows(a: Assembly, d: ToolCallDelta)
    ensures Grows(a, WithToolDelta(a, d))
    ensures SameSize(a, WithToolDelta(a, d)) <==> Quiet(d, |a.toolCalls|)
  {
    var b := WithToolDelta(a, d);
    if d.index < |a.toolCalls| {
      assert |b.toolCalls| == |a.toolCalls|;
      assert b.toolCalls[d.index] == Patched(a.toolCalls[d.index], d);
    }
  }

  lemma {:induction false} DeltasGrow(a: Assembly, ds: seq<ToolCallDelta>)
    ensures Grows(a, WithToolDeltas(a, ds))
    ensures SameSize(a, WithToolDeltas(a, ds)) <==> AllQuiet(ds, |a.toolCalls|)
    decreases |ds|
  {
    if ds != [] {
      var k := |ds| - 1;
      var b := WithToolDeltas(a, ds[..k]);
      DeltasGrow(a, ds[..k]);
      DeltaGrows(b, ds[k]);
      Squeeze(a, b, WithToolDelta(b, ds[k]));
      AllQuietSnoc(ds, |a.toolCalls|);
    }
  }

  lemma {:induction false} AllQuietSnoc(ds: seq<ToolCallDelta>, width: nat)
    requires ds != []
    ensures var k := |ds| - 1; AllQuiet(ds, width) <==> AllQuiet(ds[..k], width) && Quiet(ds[k], width)
  {
    assert forall i :: 0 <= i < |ds| - 1 ==> ds[..|ds| - 1][i] == ds[i];
  }

  lemma {:induction false} Squeeze(a: Assembly, b: Assembly, c: Assembly)
    requires Grows(a, b) && Grows(b, c)
    ensures Grows(a, c) && (SameSize(a, c) <==> SameSize(a, b) && SameSize(b, c))
  {
  }

  function WithIds(calls: seq<PartialCall>, ds: seq<ToolCallDelta>): seq<PartialCall> {
    seq(|calls|, i requires 0 <= i < |calls| => calls[i].(id := LastId(ds, i).GetOr(calls[i].id)))
  }

  /** Quiet deltas change ids only. */
  lemma {:induction false} QuietDeltas(a: Assembly, ds: seq<ToolCallDelta>)
    requires AllQuiet(ds, |a.toolCalls|)
    ensures WithToolDeltas(a, ds) == a.(toolCalls := WithIds(a.toolCalls, ds))
    decreases |ds|
  {
    if ds == [] {
      assert WithIds(a.toolCalls, ds) == a.toolCalls;
    } else {
      var k := |ds| - 1;
      QuietDeltas(a, ds[..k]);
      assert Quiet(ds[k], |a.toolCalls|);
      OneQuietDelta(a, ds);
    }
  }

  lemma {:induction false} OneQuietDelta(a: Assembly, ds: seq<ToolCallDelta>)
    requires ds != [] && Quiet(ds[|ds| - 1], |a.toolCalls|)
    ensures WithToolDelta(a.(toolCalls := WithIds(a.toolCalls, ds[..|ds| - 1])), ds[|ds| - 1])
         == a.(toolCalls := WithIds(a.toolCalls, ds))
  {
    var k := |ds| - 1;
    var before := WithIds(a.toolCalls, ds[..k]);
    var p := before[ds[k].index];
    assert p.arguments + "" == p.arguments && a.events + [] == a.events;
    assert PadTo(before, ds[k].index + 1) == before;
    assert before[ds[k].index := Patched(p, ds[k])] == WithIds(a.toolCalls, ds);
  }

  lemma {:induction false} DeltasSilentIff(a: Assembly, ds: seq<ToolCallDelta>)
    ensures WithToolDeltas(a, ds) == a <==> AllQuiet(ds, |a.toolCalls|) && KeepsIds(a.toolCalls, ds)
  {
    DeltasGrow(a, ds);
    if AllQuiet(ds, |a.toolCalls|) {
      QuietDeltas(a, ds);
      if WithIds(a.toolCalls, ds) == a.toolCalls {
        forall i | 0 <= i < |a.toolCalls| ensures LastId(ds, i).GetOr(a.toolCalls[i].id) == a.toolCalls[i].id {
          assert WithIds(a.toolCalls, ds)[i] == a.toolCalls[i];
        }
      }
      if KeepsIds(a.toolCalls, ds) {
        assert WithIds(a.toolCalls, ds) == a.toolCalls;
      }
    }
  }

  lemma {:induction false} DeltaSilentIff(a: Assembly, d: Delta)
    ensures WithDelta(a, d) == a <==> SaysNothing(a, d)
    ensures WithDelta(a, d).usage == a.usage
  {
    var b := WithReasoning(WithContent(a, d.content), d.reasoning);
    DeltasGrow(b, d.toolCalls.GetOr([]));
    DeltasKeepUsage(b, d.toolCalls.GetOr([]));
    if d.content.None? && d.reasoning.None? {
      DeltasSilentIff(a, d.toolCalls.GetOr([]));
    }
  }

  lemma {:induction false} ChunkSilentIff(a: Assembly, c: StreamChunk)
    ensures WithChunk(a, c) == a <==> ChunkSaysNothing(a, c)
  {
    if c.choices != [] {
      DeltaSilentIff(a, c.choices[0]);
    }
  }

  // ----- What is lost -----

  /** A last line without its newline is dropped. That loses data, so that the result would
      be another one with the newline, exactly when the line carries a chunk that says
      something new: content, reasoning, a call, a name, arguments, another id or usage. */
  lemma {:induction false} UnterminatedLineLostIff(parse: string -> Option<StreamChunk>, text: string, tail: string)
    requires Rest(text) == "" && FirstNewline(tail) == |tail|
    ensures var a := WithLines(parse, EMPTY, CompleteLines(text));
            && WithLines(parse, EMPTY, CompleteLines(text + tail)) == a
            && (WithLines(parse, EMPTY, CompleteLines(text + tail + "\n")) != a
                <==> ChunkOf(parse, tail).Some? && !ChunkSaysNothing(a, ChunkOf(parse, tail).value))
  {
    var a := WithLines(parse, EMPTY, CompleteLines(text));
    TailApplied(parse, text, tail);
    if ChunkOf(parse, tail).Some? {
      ChunkSilentIff(a, ChunkOf(parse, tail).value);
    }
  }

  const HI_JSON := "{\"choices\":[{\"delta\":{\"content\":\"hi\"}}]}"

  /** A parser that knows one text. */
  function ParseHi(json: string): Option<StreamChunk> {
    if json == HI_JSON then Some(StreamChunk([Delta(Some("hi"), None, None)], None)) else None
  }

  /** A stream whose only line says "hi" and stops before the newline says nothing. */
  lemma {:induction false} GreetingLost()
    ensures WithLines(ParseHi, EMPTY, CompleteLines(DATA + HI_JSON)) == EMPTY
    ensures WithLines(ParseHi, EMPTY, CompleteLines(DATA + HI_JSON + "\n")).content == "hi"
  {
    var line := DATA + HI_JSON;
    assert FirstNewline(line) == |line| by {
      FirstNewlineUnique(line, |line|);
    }
    ChunkOfData(ParseHi, HI_JSON);
    TailApplied(ParseHi, "", line);
    assert "" + line == line;
    assert WithContent(EMPTY, Some("hi")).content == "hi";
  }

  lemma {:induction false} ChunkOfData(parse: string -> Option<StreamChunk>, json: string)
    requires json != "" && json[0] == '{' && json[|json| - 1] == '}'
    ensures ChunkOf(parse, DATA + json) == parse(json)
  {
    var line := DATA + json;
    assert line[0] == 'd' && line[|line| - 1] == '}' && line[|DATA|] == '{';
    assert TrimStart(line) == line && TrimEnd(line) == line;
    assert "data: [DONE]"[|DATA|] == '[';
    assert line[|DATA|..] == json;
  }
}
