/** crates/openclaw-agent/src/llm/streaming.rs: assembling a completion from a stream of
    server-sent events. The text arrives in arbitrary chunks; each complete line may carry
    a JSON chunk with deltas of content, reasoning and tool calls. */
module Streaming {
  import opened Common
  import opened Messages
  import opened LineBuffer

  datatype FunctionDelta = FunctionDelta(name: Option<string>, arguments: Option<string>)

  datatype ToolCallDelta = ToolCallDelta(index: nat, id: Option<string>, func: Option<FunctionDelta>)

  datatype Delta = Delta(content: Option<string>, reasoning: Option<string>, toolCalls: Option<seq<ToolCallDelta>>)

  datatype Usage = Usage(prompt: nat, completion: nat, total: nat)

  datatype StreamChunk = StreamChunk(choices: seq<Delta>, usage: Option<Usage>)

  datatype StreamEvent = ContentDelta(text: string) | ReasoningDelta(text: string) | ToolCallStart(name: string)

  datatype PartialCall = PartialCall(id: string, name: string, arguments: string)

  const NO_CALL := PartialCall("", "", "")

  datatype Assembly = Assembly(
    content: string,
    reasoning: string,
    toolCalls: seq<PartialCall>,
    usage: Usage,
    events: seq<StreamEvent>
  )

  const EMPTY := Assembly("", "", [], Usage(0, 0, 0), [])

  // ----- One line -----

  function PadTo(calls: seq<PartialCall>, n: nat): (r: seq<PartialCall>)
    ensures |r| == Max(|calls|, n)
    ensures forall k :: 0 <= k < |r| ==> r[k] == if k < |calls| then calls[k] else NO_CALL
  {
    calls + seq(Max(n - |calls|, 0), _ => NO_CALL)
  }

  function Patched(p: PartialCall, d: ToolCallDelta): PartialCall {
    var func := d.func.GetOr(FunctionDelta(None, None));
    PartialCall(d.id.GetOr(p.id), func.name.GetOr(p.name), p.arguments + func.arguments.GetOr(""))
  }

  function StartEvents(d: ToolCallDelta): seq<StreamEvent> {
    if d.func.Some? && d.func.value.name.Some? then [ToolCallStart(d.func.value.name.value)] else []
  }

  function WithToolDelta(a: Assembly, d: ToolCallDelta): Assembly {
    var padded := PadTo(a.toolCalls, d.index + 1);
    a.(toolCalls := padded[d.index := Patched(padded[d.index], d)], events := a.events + StartEvents(d))
  }

  function WithToolDeltas(a: Assembly, ds: seq<ToolCallDelta>): Assembly {
    if ds == [] then a else WithToolDelta(WithToolDeltas(a, ds[..|ds| - 1]), ds[|ds| - 1])
  }

  function WithContent(a: Assembly, text: Option<string>): Assembly {
    match text
    case None => a
    case Some(t) => a.(content := a.content + t, events := a.events + [ContentDelta(t)])
  }

  function WithReasoning(a: Assembly, text: Option<string>): Assembly {
    match text
    case None => a
    case Some(t) => a.(reasoning := a.reasoning + t, events := a.events + [ReasoningDelta(t)])
  }

  function WithDelta(a: Assembly, d: Delta): Assembly {
    WithToolDeltas(WithReasoning(WithContent(a, d.content), d.reasoning), d.toolCalls.GetOr([]))
  }

  /** Only the first choice of a chunk counts; usage replaces earlier usage. */
  function WithChunk(a: Assembly, c: StreamChunk): Assembly {
    var b := if c.choices == [] then a else WithDelta(a, c.choices[0]);
    b.(usage := c.usage.GetOr(b.usage))
  }

  const DATA := "data: "

  /** The JSON chunk a line carries, if any; `parse` is the JSON parser. */
  function ChunkOf(parse: string -> Option<StreamChunk>, line: string): Option<StreamChunk> {
    var l := Trim(line);
    if l == "" || l == "data: [DONE]" then None
    else if DATA <= l then parse(l[|DATA|..])
    else None
  }

  function WithLine(parse: string -> Option<StreamChunk>, a: Assembly, line: string): Assembly {
    match ChunkOf(parse, line)
    case None => a
    case Some(c) => WithChunk(a, c)
  }

  function WithLines(parse: string -> Option<StreamChunk>, a: Assembly, lines: seq<string>): Assembly
    decreases |lines|
  {
    if lines == [] then a else WithLines(parse, WithLine(parse, a, lines[0]), lines[1..])
  }

  // ----- The end of the stream -----

  function AsU32(n: nat): nat {
    n % 0x1_0000_0000
  }

  function ContentLength(ms: seq<Message>): nat {
    if ms == [] then 0 else ContentLength(ms[..|ms| - 1]) + |ms[|ms| - 1].content.GetOr("")|
  }

  /** The reported usage, or an estimate of four characters a token if none was reported. */
  function FinalUsage(a: Assembly, sent: seq<Message>): Usage {
    if a.usage.total != 0 then a.usage
    else
      var prompt := AsU32(Max(ContentLength(sent) / 4, 1));
      var completion := AsU32(Max((|a.content| + |a.reasoning|) / 4, 1));
      Usage(prompt, completion, AsU32(prompt + completion))
  }

  function FinalCalls(a: Assembly): seq<ToolCall> {
    seq(|a.toolCalls|, i requires 0 <= i < |a.toolCalls| =>
      ToolCall(a.toolCalls[i].id, "function", FunctionCall(a.toolCalls[i].name, a.toolCalls[i].arguments)))
  }

  function FinalCompletion(a: Assembly): Completion {
    var reasoning := if a.reasoning == "" then None else Some(a.reasoning);
    if a.toolCalls != [] then ToolCalls(FinalCalls(a), reasoning) else Text(a.content, reasoning)
  }

  datatype StreamResult = Finished(completion: Completion, usage: Usage, events: seq<StreamEvent>) | ReadError

  function Finish(a: Assembly, sent: seq<Message>): StreamResult {
    Finished(FinalCompletion(a), FinalUsage(a, sent), a.events)
  }

  // ----- The stream as the source reads it -----

  method ApplyToolDeltas(a: Assembly, ds: seq<ToolCallDelta>) returns (b: Assembly)
    ensures b == WithToolDeltas(a, ds)
  {
    b := a;
    for i := 0 to |ds|
      invariant b == WithToolDeltas(a, ds[..i])
    {
      assert ds[..i + 1][..i] == ds[..i];
      var calls := b.toolCalls;
      while |calls| <= ds[i].index
        invariant PadTo(calls, ds[i].index + 1) == PadTo(b.toolCalls, ds[i].index + 1)
        decreases ds[i].index + 1 - |calls|
      {
        calls := calls + [NO_CALL];
      }
      assert calls == PadTo(calls, ds[i].index + 1);
      calls := calls[ds[i].index := Patched(calls[ds[i].index], ds[i])];
      b := b.(toolCalls := calls, events := b.events + StartEvents(ds[i]));
    }
    assert ds[..|ds|] == ds;
  }

  method ApplyLine(parse: string -> Option<StreamChunk>, a: Assembly, line: string) returns (b: Assembly)
    ensures b == WithLine(parse, a, line)
  {
    b := a;
    var chunk := ChunkOf(parse, line);
    if chunk.Some? {
      if chunk.value.choices != [] {
        var delta := chunk.value.choices[0];
        b := WithContent(b, delta.content);
        b := WithReasoning(b, delta.reasoning);
        if delta.toolCalls.Some? {
          b := ApplyToolDeltas(b, delta.toolCalls.value);
        }
      }
      if chunk.value.usage.Some? {
        b := b.(usage := chunk.value.usage.value);
      }
    }
  }

  /** Take every complete line from the front of the buffer. */
  method DrainLines(parse: string -> Option<StreamChunk>, a: Assembly, text: string)
    returns (b: Assembly, buffer: string)
    ensures b == WithLines(parse, a, CompleteLines(text))
    ensures buffer == Rest(text)
  {
    b := a;
    buffer := text;
    while FirstNewline(buffer) < |buffer|
      invariant WithLines(parse, b, CompleteLines(buffer)) == WithLines(parse, a, CompleteLines(text))
      invariant Rest(buffer) == Rest(text)
      decreases |buffer|
    {
      var lineEnd := FirstNewline(buffer);
      var line := buffer[..lineEnd];
      assert CompleteLines(buffer) == [line] + CompleteLines(buffer[lineEnd + 1..]);
      assert CompleteLines(buffer)[1..] == CompleteLines(buffer[lineEnd + 1..]);
      b := ApplyLine(parse, b, line);
      buffer := buffer[lineEnd + 1..];
    }
  }

  lemma {:induction false} WithLinesConcat(parse: string -> Option<StreamChunk>, a: Assembly, xs: seq<string>,
                                           ys: seq<string>)
    ensures WithLines(parse, a, xs + ys) == WithLines(parse, WithLines(parse, a, xs), ys)
    decreases |xs|
  {
    if xs == [] {
      assert xs + ys == ys;
    } else {
      assert (xs + ys)[1..] == xs[1..] + ys;
      WithLinesConcat(parse, WithLine(parse, a, xs[0]), xs[1..], ys);
    }
  }

  /** Adding one chunk to the text read so far and draining its lines is reading it all. */
  lemma {:induction false} ReadOneMore(parse: string -> Option<StreamChunk>, text: string, chunk: string)
    ensures var a := WithLines(parse, EMPTY, CompleteLines(text));
            && WithLines(parse, a, CompleteLines(Rest(text) + chunk))
               == WithLines(parse, EMPTY, CompleteLines(text + chunk))
            && Rest(Rest(text) + chunk) == Rest(text + chunk)
  {
    ReadInTwoSteps(text, chunk);
    WithLinesConcat(parse, EMPTY, CompleteLines(text), CompleteLines(Rest(text) + chunk));
  }

  // ----- What the assembled result is made of -----

  function Deltas(parse: string -> Option<StreamChunk>, lines: seq<string>): seq<Delta> {
    if lines == [] then []
    else
      var k := |lines| - 1;
      match ChunkOf(parse, lines[k])
      case None => Deltas(parse, lines[..k])
      case Some(c) => if c.choices == [] then Deltas(parse, lines[..k]) else Deltas(parse, lines[..k]) + [c.choices[0]]
  }

  function ContentText(ds: seq<Delta>): string {
    if ds == [] then "" else ContentText(ds[..|ds| - 1]) + ds[|ds| - 1].content.GetOr("")
  }

  function ReasoningText(ds: seq<Delta>): string {
    if ds == [] then "" else ReasoningText(ds[..|ds| - 1]) + ds[|ds| - 1].reasoning.GetOr("")
  }

  function ToolDeltas(ds: seq<Delta>): seq<ToolCallDelta> {
    if ds == [] then [] else ToolDeltas(ds[..|ds| - 1]) + ds[|ds| - 1].toolCalls.GetOr([])
  }

  /** What one tool call is made of: the last id and the last name given for its index, and
      all argument pieces for its index in order. */
  function CallOf(ds: seq<ToolCallDelta>, index: nat): PartialCall {
    if ds == [] then NO_CALL
    else if ds[|ds| - 1].index == index then Patched(CallOf(ds[..|ds| - 1], index), ds[|ds| - 1])
    else CallOf(ds[..|ds| - 1], index)
  }

  function ArgumentsText(ds: seq<ToolCallDelta>, index: nat): string {
    if ds == [] then ""
    else
      var d := ds[|ds| - 1];
      ArgumentsText(ds[..|ds| - 1], index) +
      if d.index == index then d.func.GetOr(FunctionDelta(None, None)).arguments.GetOr("") else ""
  }

  /** One more than the largest index mentioned. */
  function Width(ds: seq<ToolCallDelta>): nat {
    if ds == [] then 0 else Max(Width(ds[..|ds| - 1]), ds[|ds| - 1].index + 1)
  }

  function ContentEvents(es: seq<StreamEvent>): string {
    if es == [] then ""
    else ContentEvents(es[..|es| - 1]) + match es[|es| - 1] case ContentDelta(t) => t case _ => ""
  }

  function ReasoningEvents(es: seq<StreamEvent>): string {
    if es == [] then ""
    else ReasoningEvents(es[..|es| - 1]) + match es[|es| - 1] case ReasoningDelta(t) => t case _ => ""
  }

  ghost predicate CallsAre(calls: seq<PartialCall>, ds: seq<ToolCallDelta>) {
    && |calls| == Width(ds)
    && forall i :: 0 <= i < |calls| ==> calls[i] == CallOf(ds, i)
  }

  ghost predicate AssembledFrom(a: Assembly, ds: seq<Delta>) {
    && a.content == ContentText(ds) == ContentEvents(a.events)
    && a.reasoning == ReasoningText(ds) == ReasoningEvents(a.events)
    && CallsAre(a.toolCalls, ToolDeltas(ds))
  }

  lemma {:induction false} CallOfBeyondWidth(ds: seq<ToolCallDelta>, index: nat)
    requires Width(ds) <= index
    ensures CallOf(ds, index) == NO_CALL
    decreases |ds|
  {
    if ds != [] {
      CallOfBeyondWidth(ds[..|ds| - 1], index);
    }
  }

  lemma {:induction false} EventsSnoc(es: seq<StreamEvent>, e: StreamEvent)
    ensures ContentEvents(es + [e]) == ContentEvents(es) + match e case ContentDelta(t) => t case _ => ""
    ensures ReasoningEvents(es + [e]) == ReasoningEvents(es) + match e case ReasoningDelta(t) => t case _ => ""
  {
    assert (es + [e])[..|es|] == es;
  }

  lemma {:induction false} StartEventsAreSilent(es: seq<StreamEvent>, d: ToolCallDelta)
    ensures ContentEvents(es + StartEvents(d)) == ContentEvents(es)
    ensures ReasoningEvents(es + StartEvents(d)) == ReasoningEvents(es)
  {
    if StartEvents(d) == [] {
      assert es + [] == es;
    } else {
      EventsSnoc(es, StartEvents(d)[0]);
    }
  }

  lemma {:induction false} ToolDeltaKeepsCalls(a: Assembly, ds: seq<ToolCallDelta>, d: ToolCallDelta)
    requires CallsAre(a.toolCalls, ds)
    ensures CallsAre(WithToolDelta(a, d).toolCalls, ds + [d])
  {
    var b := WithToolDelta(a, d);
    var more := ds + [d];
    assert more[..|more| - 1] == ds;
    forall i | 0 <= i < |b.toolCalls| ensures b.toolCalls[i] == CallOf(more, i) {
      if i >= Width(ds) {
        CallOfBeyondWidth(ds, i);
      }
    }
  }

  lemma {:induction false} ToolDeltasKeep(a: Assembly, before: seq<ToolCallDelta>, ds: seq<ToolCallDelta>)
    requires CallsAre(a.toolCalls, before)
    ensures var b := WithToolDeltas(a, ds);
            && CallsAre(b.toolCalls, before + ds)
            && b.content == a.content && b.reasoning == a.reasoning
            && ContentEvents(b.events) == ContentEvents(a.events)
            && ReasoningEvents(b.events) == ReasoningEvents(a.events)
    decreases |ds|
  {
    if ds == [] {
      assert before + ds == before;
    } else {
      var k := |ds| - 1;
      ToolDeltasKeep(a, before, ds[..k]);
      var b := WithToolDeltas(a, ds[..k]);
      ToolDeltaKeepsCalls(b, before + ds[..k], ds[k]);
      StartEventsAreSilent(b.events, ds[k]);
      ConcatAssociative(before, ds[..k], [ds[k]]);
      TakeSnoc(ds, k);
      assert ds[..k + 1] == ds;
    }
  }

  lemma {:induction false} ContentKeeps(a: Assembly, text: Option<string>)
    ensures var b := WithContent(a, text);
            && b == a.(content := a.content + text.GetOr(""), events := b.events)
            && ContentEvents(b.events) == ContentEvents(a.events) + text.GetOr("")
            && ReasoningEvents(b.events) == ReasoningEvents(a.events)
  {
    if text.Some? {
      EventsSnoc(a.events, ContentDelta(text.value));
    }
  }

  lemma {:induction false} ReasoningKeeps(a: Assembly, text: Option<string>)
    ensures var b := WithReasoning(a, text);
            && b == a.(reasoning := a.reasoning + text.GetOr(""), events := b.events)
            && ReasoningEvents(b.events) == ReasoningEvents(a.events) + text.GetOr("")
            && ContentEvents(b.events) == ContentEvents(a.events)
  {
    if text.Some? {
      EventsSnoc(a.events, ReasoningDelta(text.value));
    }
  }

  lemma {:induction false} DeltaKeeps(a: Assembly, ds: seq<Delta>, d: Delta)
    requires AssembledFrom(a, ds)
    ensures AssembledFrom(WithDelta(a, d), ds + [d])
  {
    assert (ds + [d])[..|ds|] == ds;
    ContentKeeps(a, d.content);
    ReasoningKeeps(WithContent(a, d.content), d.reasoning);
    var b := WithReasoning(WithContent(a, d.content), d.reasoning);
    ToolDeltasKeep(b, ToolDeltas(ds), d.toolCalls.GetOr([]));
  }

  lemma {:induction false} LineKeeps(parse: string -> Option<StreamChunk>, a: Assembly, lines: seq<string>,
                                     line: string)
    requires AssembledFrom(a, Deltas(parse, lines))
    ensures AssembledFrom(WithLine(parse, a, line), Deltas(parse, lines + [line]))
  {
    assert (lines + [line])[..|lines|] == lines;
    match ChunkOf(parse, line)
    case None =>
    case Some(c) =>
      if c.choices != [] {
        DeltaKeeps(a, Deltas(parse, lines), c.choices[0]);
      }
  }

  lemma {:induction false} LastLine(parse: string -> Option<StreamChunk>, lines: seq<string>)
    requires lines != []
    ensures var k := |lines| - 1;
            WithLines(parse, EMPTY, lines) == WithLine(parse, WithLines(parse, EMPTY, lines[..k]), lines[k])
  {
    var k := |lines| - 1;
    assert lines == lines[..k] + [lines[k]];
    WithLinesConcat(parse, EMPTY, lines[..k], [lines[k]]);
    assert [lines[k]][1..] == [];
  }

  lemma {:induction false} LinesKeep(parse: string -> Option<StreamChunk>, lines: seq<string>)
    ensures AssembledFrom(WithLines(parse, EMPTY, lines), Deltas(parse, lines))
    decreases |lines|
  {
    if lines != [] {
      var k := |lines| - 1;
      LinesKeep(parse, lines[..k]);
      LastLine(parse, lines);
      LineKeeps(parse, WithLines(parse, EMPTY, lines[..k]), lines[..k], lines[k]);
      assert lines == lines[..k] + [lines[k]];
    }
  }

  /** The result of a stream in terms of the deltas on its complete lines: content and
      reasoning are their texts in order, and equal the emitted events put together; there
      is a tool call for every index up to the largest mentioned, holding the last id and
      name and all argument pieces of that index in order. */
  lemma {:induction false} StreamIsItsDeltas(parse: string -> Option<StreamChunk>, text: string)
    ensures AssembledFrom(WithLines(parse, EMPTY, CompleteLines(text)), Deltas(parse, CompleteLines(text)))
  {
    LinesKeep(parse, CompleteLines(text));
  }

  lemma {:induction false} ArgumentsOfCall(ds: seq<ToolCallDelta>, index: nat)
    ensures CallOf(ds, index).arguments == ArgumentsText(ds, index)
    decreases |ds|
  {
    if ds != [] {
      ArgumentsOfCall(ds[..|ds| - 1], index);
    }
  }

  /** The arguments of call i are the argument pieces for index i, in order. */
  lemma {:induction false} ToolCallArguments(parse: string -> Option<StreamChunk>, text: string, i: nat)
    requires i < |WithLines(parse, EMPTY, CompleteLines(text)).toolCalls|
    ensures WithLines(parse, EMPTY, CompleteLines(text)).toolCalls[i].arguments
         == ArgumentsText(ToolDeltas(Deltas(parse, CompleteLines(text))), i)
  {
    StreamIsItsDeltas(parse, text);
    ArgumentsOfCall(ToolDeltas(Deltas(parse, CompleteLines(text))), i);
  }

  // ----- The result of a stream -----

  /** The last usage reported on the lines. */
  function LastUsage(parse: string -> Option<StreamChunk>, lines: seq<string>): Option<Usage> {
    if lines == [] then None
    else
      var k := |lines| - 1;
      match ChunkOf(parse, lines[k])
      case None => LastUsage(parse, lines[..k])
      case Some(c) => if c.usage.Some? then c.usage else LastUsage(parse, lines[..k])
  }

  lemma {:induction false} UsageIsLast(parse: string -> Option<StreamChunk>, lines: seq<string>)
    ensures WithLines(parse, EMPTY, lines).usage == LastUsage(parse, lines).GetOr(Usage(0, 0, 0))
    decreases |lines|
  {
    if lines != [] {
      var k := |lines| - 1;
      UsageIsLast(parse, lines[..k]);
      LastLine(parse, lines);
      LineKeepsUsage(parse, WithLines(parse, EMPTY, lines[..k]), lines[k]);
    }
  }

  lemma {:induction false} LineKeepsUsage(parse: string -> Option<StreamChunk>, a: Assembly, line: string)
    ensures WithLine(parse, a, line).usage
         == match ChunkOf(parse, line) case None => a.usage case Some(c) => c.usage.GetOr(a.usage)
  {
    match ChunkOf(parse, line)
    case None =>
    case Some(c) =>
      if c.choices != [] {
        var d := c.choices[0];
        DeltasKeepUsage(WithReasoning(WithContent(a, d.content), d.reasoning), d.toolCalls.GetOr([]));
      }
  }

  lemma {:induction false} DeltasKeepUsage(a: Assembly, ds: seq<ToolCallDelta>)
    ensures WithToolDeltas(a, ds).usage == a.usage
    decreases |ds|
  {
    if ds != [] {
      DeltasKeepUsage(a, ds[..|ds| - 1]);
    }
  }

  /** The last id and the last name given for an index. */
  function LastId(ds: seq<ToolCallDelta>, index: nat): Option<string> {
    if ds == [] then None
    else
      var d := ds[|ds| - 1];
      if d.index == index && d.id.Some? then d.id else LastId(ds[..|ds| - 1], index)
  }

  function LastName(ds: seq<ToolCallDelta>, index: nat): Option<string> {
    if ds == [] then None
    else
      var d := ds[|ds| - 1];
      if d.index == index && d.func.Some? && d.func.value.name.Some? then d.func.value.name
      else LastName(ds[..|ds| - 1], index)
  }

  lemma {:induction false} CallParts(ds: seq<ToolCallDelta>, index: nat)
    ensures CallOf(ds, index)
         == PartialCall(LastId(ds, index).GetOr(""), LastName(ds, index).GetOr(""), ArgumentsText(ds, index))
    decreases |ds|
  {
    ArgumentsOfCall(ds, index);
    if ds != [] {
      CallParts(ds[..|ds| - 1], index);
    }
  }

  predicate ReasoningIs(reasoning: Option<string>, text: string) {
    if text == "" then reasoning == None else reasoning == Some(text)
  }

  /** Without tool deltas the completion is the content; with any, it is one call for every
      index up to the largest, with the last id and name and
      all the arguments given for it. */
  predicate CompletionSays(c: Completion, ds: seq<Delta>) {
    var tools := ToolDeltas(ds);
    && ReasoningIs(c.reasoning, ReasoningText(ds))
    && if tools == [] then c.Text? && c.content == ContentText(ds)
       else
         && c.ToolCalls? && |c.calls| == Width(tools)
         && forall i :: 0 <= i < |c.calls| ==>
              && c.calls[i].id == LastId(tools, i).GetOr("") && c.calls[i].callType == "function"
              && c.calls[i].func.name == LastName(tools, i).GetOr("")
              && c.calls[i].func.arguments == ArgumentsText(tools, i)
  }

  /** The usage is the last one reported; if that has no total, an estimate of one token for
      four characters, and at least one, for what was sent and for what was received. */
  predicate UsageSays(u: Usage, reported: Option<Usage>, ds: seq<Delta>, sent: seq<Message>) {
    if reported.Some? && reported.value.total != 0 then u == reported.value
    else
      && u.prompt == AsU32(Max(ContentLength(sent) / 4, 1))
      && u.completion == AsU32(Max((|ContentText(ds)| + |ReasoningText(ds)|) / 4, 1))
      && u.total == AsU32(u.prompt + u.completion)
  }

  /** What was sent is measured message by message. */
  lemma {:induction false} ContentLengthAdds(ms: seq<Message>, more: seq<Message>)
    ensures ContentLength(ms + more) == ContentLength(ms) + ContentLength(more)
    ensures forall m :: m in ms ==> |m.content.GetOr("")| == ContentLength([m])
    decreases |more|
  {
    forall m | m in ms ensures |m.content.GetOr("")| == ContentLength([m]) {
      assert [m][..0] == [];
    }
    if more == [] {
      assert ms + more == ms;
    } else {
      assert (ms + more)[..|ms + more| - 1] == ms + more[..|more| - 1];
      ContentLengthAdds(ms, more[..|more| - 1]);
    }
  }

  /** The whole result, told by the deltas and the usage on the lines. */
  predicate ResultSays(parse: string -> Option<StreamChunk>, lines: seq<string>, sent: seq<Message>, r: StreamResult) {
    && r.Finished?
    && var ds := Deltas(parse, lines);
       && CompletionSays(r.completion, ds)
       && UsageSays(r.usage, LastUsage(parse, lines), ds, sent)
       && ContentEvents(r.events) == ContentText(ds)
       && ReasoningEvents(r.events) == ReasoningText(ds)
  }

  lemma {:induction false} SomeWidth(ds: seq<ToolCallDelta>)
    ensures Width(ds) == 0 <==> ds == []
  {
  }

  lemma {:induction false} FinishSays(parse: string -> Option<StreamChunk>, lines: seq<string>, sent: seq<Message>)
    ensures ResultSays(parse, lines, sent, Finish(WithLines(parse, EMPTY, lines), sent))
  {
    var a := WithLines(parse, EMPTY, lines);
    LinesKeep(parse, lines);
    UsageIsLast(parse, lines);
    CompletionIsSaid(a, Deltas(parse, lines));
    UsageIsSaid(a, LastUsage(parse, lines), Deltas(parse, lines), sent);
  }

  lemma {:induction false} UsageIsSaid(a: Assembly, reported: Option<Usage>, ds: seq<Delta>, sent: seq<Message>)
    requires AssembledFrom(a, ds) && a.usage == reported.GetOr(Usage(0, 0, 0))
    ensures UsageSays(FinalUsage(a, sent), reported, ds, sent)
  {
  }

  lemma {:induction false} CompletionIsSaid(a: Assembly, ds: seq<Delta>)
    requires AssembledFrom(a, ds)
    ensures CompletionSays(FinalCompletion(a), ds)
  {
    var tools := ToolDeltas(ds);
    SomeWidth(tools);
    forall i | 0 <= i < |a.toolCalls|
      ensures a.toolCalls[i]
           == PartialCall(LastId(tools, i).GetOr(""), LastName(tools, i).GetOr(""), ArgumentsText(tools, i))
    {
      CallParts(tools, i);
    }
  }

  /** Reading a stream to its end; a chunk None is a read error. The result depends only
      on the concatenated text, however it was cut into chunks. */
  method StreamCompletion(parse: string -> Option<StreamChunk>, chunks: seq<Option<string>>, sent: seq<Message>)
    returns (r: StreamResult)
    ensures r.ReadError? <==> None in chunks
    ensures None !in chunks ==> r == Finish(WithLines(parse, EMPTY, CompleteLines(StreamText(chunks))), sent)
    ensures None !in chunks ==> ResultSays(parse, CompleteLines(StreamText(chunks)), sent, r)
  {
    var a := EMPTY;
    var buffer := "";
    ghost var text := "";
    for i := 0 to |chunks|
      invariant forall k :: 0 <= k < i ==> chunks[k].Some?
      invariant text == StreamText(chunks[..i])
      invariant a == WithLines(parse, EMPTY, CompleteLines(text))
      invariant buffer == Rest(text)
    {
      if chunks[i].None? {
        return ReadError;
      }
      StreamTextStep(chunks, i);
      ReadOneMore(parse, text, chunks[i].value);
      a, buffer := DrainLines(parse, a, buffer + chunks[i].value);
      text := text + chunks[i].value;
    }
    TakeAll(chunks);
    r := Finish(a, sent);
    FinishSays(parse, CompleteLines(text), sent);
  }

  // ----- What a line carries -----

  /** A data line carries what the parser makes of its text, whatever white space is around. */
  lemma {:induction false} DataLineCarries(parse: string -> Option<StreamChunk>, a: string, json: string, b: string)
    requires AllSpace(a) && AllSpace(b) && json != "" && !IsSpace(json[|json| - 1]) && json != "[DONE]"
    ensures ChunkOf(parse, a + (DATA + json) + b) == parse(json)
  {
    var l := DATA + json;
    TrimTakesSpace(a, l, b);
    assert l[|DATA|..] == json;
    assert "data: [DONE]"[|DATA|..] == "[DONE]";
  }

  /** The end mark, and every line that does not begin with `data: `, carries nothing. */
  lemma {:induction false} OtherLinesCarryNothing(parse: string -> Option<StreamChunk>, a: string, l: string, b: string)
    requires AllSpace(a) && AllSpace(b) && l != "" && !IsSpace(l[0]) && !IsSpace(l[|l| - 1])
    requires l == "data: [DONE]" || !(DATA <= l)
    ensures ChunkOf(parse, a + l + b) == None
  {
    TrimTakesSpace(a, l, b);
  }
}
