/** crates/openclaw-agent/src/llm/anthropic.rs: translating a conversation into the
    Anthropic message format, and assembling a completion from its event stream. */
module Anthropic {
  import opened Common
  import opened Messages
  import opened LineBuffer
  import Streaming

  // ----- Translating messages -----

  datatype ContentBlock =
    | TextBlock(text: string)
    | ImageBlock(mediaType: string, data: string)
    | ToolUse(id: string, name: string, input: string)
    | ToolResult(toolUseId: string, output: string)

  datatype Content = PlainText(text: string) | Blocks(blocks: seq<ContentBlock>)

  datatype AnthropicMessage = AnthropicMessage(role: string, content: Content)

  function IndexOf(s: string, c: char): (i: nat)
    ensures i <= |s|
  {
    if s == "" || s[0] == c then 0 else 1 + IndexOf(s[1..], c)
  }

  /** "data:<type>;base64,<data>" as (type, data). */
  function ParseDataUrl(url: string): Option<(string, string)> {
    var suffix := ";base64";
    if !("data:" <= url) then None
    else
      var rest := url[5..];
      var comma := IndexOf(rest, ',');
      if comma == |rest| then None
      else
        var header := rest[..comma];
        if |header| < |suffix| || header[|header| - |suffix|..] != suffix then None
        else Some((header[..|header| - |suffix|], rest[comma + 1..]))
  }

  function ImageBlocks(urls: seq<string>): seq<ContentBlock> {
    if urls == [] then []
    else
      var before := ImageBlocks(urls[..|urls| - 1]);
      match ParseDataUrl(urls[|urls| - 1])
      case None => before
      case Some((mediaType, data)) => before + [ImageBlock(mediaType, data)]
  }

  function TextBlocks(content: Option<string>): seq<ContentBlock> {
    if content.GetOr("") == "" then [] else [TextBlock(content.value)]
  }

  /** `parse` gives the canonical text of JSON arguments, or None. */
  function ToolUses(parse: string -> Option<string>, calls: seq<ToolCall>): seq<ContentBlock> {
    seq(|calls|, i requires 0 <= i < |calls| =>
      ToolUse(calls[i].id, calls[i].func.name, parse(calls[i].func.arguments).GetOr("{}")))
  }

  /** What one message becomes: at most one message; system texts go elsewhere. */
  function ConvertOne(parse: string -> Option<string>, m: Message): seq<AnthropicMessage> {
    match m.role
    case System => []
    case User =>
      if m.imageUrls != [] then [AnthropicMessage("user", Blocks(ImageBlocks(m.imageUrls) + TextBlocks(m.content)))]
      else if m.content.Some? then [AnthropicMessage("user", PlainText(m.content.value))]
      else []
    case Assistant =>
      if m.toolCalls.Some? then
        [AnthropicMessage("assistant", Blocks(TextBlocks(m.content) + ToolUses(parse, m.toolCalls.value)))]
      else if m.content.Some? then [AnthropicMessage("assistant", PlainText(m.content.value))]
      else []
    case Tool =>
      [AnthropicMessage("user", Blocks([ToolResult(m.toolCallId.GetOr(""), m.content.GetOr(""))]))]
  }

  function Convert(parse: string -> Option<string>, ms: seq<Message>): seq<AnthropicMessage> {
    if ms == [] then [] else Convert(parse, ms[..|ms| - 1]) + ConvertOne(parse, ms[|ms| - 1])
  }

  /** The last system text. */
  function SystemPrompt(ms: seq<Message>): Option<string> {
    if ms == [] then None
    else if ms[|ms| - 1].role.System? && ms[|ms| - 1].content.Some? then ms[|ms| - 1].content
    else SystemPrompt(ms[..|ms| - 1])
  }

  method ConvertMessages(parse: string -> Option<string>, ms: seq<Message>)
    returns (system: Option<string>, converted: seq<AnthropicMessage>)
    ensures system == SystemPrompt(ms)
    ensures converted == Convert(parse, ms)
  {
    system := None;
    converted := [];
    for i := 0 to |ms|
      invariant system == SystemPrompt(ms[..i])
      invariant converted == Convert(parse, ms[..i])
    {
      assert ms[..i + 1][..i] == ms[..i];
      if ms[i].role.System? && ms[i].content.Some? {
        system := ms[i].content;
      }
      converted := converted + ConvertOne(parse, ms[i]);
    }
    assert ms[..|ms|] == ms;
  }

  // ----- Pairing in the Anthropic format -----

  function UseIds(blocks: seq<ContentBlock>): seq<string> {
    if blocks == [] then []
    else if blocks[0].ToolUse? then [blocks[0].id] + UseIds(blocks[1..])
    else UseIds(blocks[1..])
  }

  function ResultIds(blocks: seq<ContentBlock>): seq<string> {
    if blocks == [] then []
    else if blocks[0].ToolResult? then [blocks[0].toolUseId] + ResultIds(blocks[1..])
    else ResultIds(blocks[1..])
  }

  /** The tool_use ids of a message, in order. */
  function Uses(m: AnthropicMessage): seq<string> {
    if m.content.Blocks? then UseIds(m.content.blocks) else []
  }

  /** The tool_result ids of a message, in order. */
  function Results(m: AnthropicMessage): seq<string> {
    if m.content.Blocks? then ResultIds(m.content.blocks) else []
  }

  /** Message m holds the one result for a tool use, and nothing else to pair. */
  predicate AnswersUse(m: AnthropicMessage, id: string) {
    m.role == "user" && Results(m) == [id] && Uses(m) == []
  }

  /** Every message is followed by exactly the results for its tool uses, in order. */
  predicate UsesAnswered(ms: seq<AnthropicMessage>) {
    |ms| == 0 ||
    (&& Results(ms[0]) == []
     && |Uses(ms[0])| < |ms|
     && (forall k :: 0 <= k < |Uses(ms[0])| ==> AnswersUse(ms[1 + k], Uses(ms[0])[k]))
     && UsesAnswered(ms[1 + |Uses(ms[0])|..]))
  }

  /** The message part of the translation maps concatenation to concatenation. */
  lemma {:induction false} ConvertConcat(parse: string -> Option<string>, a: seq<Message>, b: seq<Message>)
    ensures Convert(parse, a + b) == Convert(parse, a) + Convert(parse, b)
    ensures SystemPrompt(a + b) == if SystemPrompt(b).Some? then SystemPrompt(b) else SystemPrompt(a)
    decreases |b|
  {
    if b == [] {
      assert a + b == a;
    } else {
      var k := |b| - 1;
      assert (a + b)[..|a + b| - 1] == a + b[..k];
      ConvertConcat(parse, a, b[..k]);
      ConcatAssociative(Convert(parse, a), Convert(parse, b[..k]), ConvertOne(parse, b[k]));
    }
  }

  lemma {:induction false} IdsConcat(a: seq<ContentBlock>, b: seq<ContentBlock>)
    ensures UseIds(a + b) == UseIds(a) + UseIds(b)
    ensures ResultIds(a + b) == ResultIds(a) + ResultIds(b)
    decreases |a|
  {
    if a == [] {
      assert a + b == b;
    } else {
      assert (a + b)[1..] == a[1..] + b;
      IdsConcat(a[1..], b);
    }
  }

  lemma {:induction false} NoIds(blocks: seq<ContentBlock>)
    requires forall k :: 0 <= k < |blocks| ==> !blocks[k].ToolUse? && !blocks[k].ToolResult?
    ensures UseIds(blocks) == [] && ResultIds(blocks) == []
  {
    if blocks != [] {
      NoIds(blocks[1..]);
    }
  }

  lemma {:induction false} ImagesOnly(urls: seq<string>)
    ensures forall k :: 0 <= k < |ImageBlocks(urls)| ==> ImageBlocks(urls)[k].ImageBlock?
    decreases |urls|
  {
    if urls != [] {
      ImagesOnly(urls[..|urls| - 1]);
    }
  }

  function CallIds(calls: seq<ToolCall>): seq<string> {
    seq(|calls|, i requires 0 <= i < |calls| => calls[i].id)
  }

  lemma {:induction false} ToolUseIds(parse: string -> Option<string>, calls: seq<ToolCall>)
    ensures UseIds(ToolUses(parse, calls)) == CallIds(calls)
    ensures ResultIds(ToolUses(parse, calls)) == []
    decreases |calls|
  {
    if calls != [] {
      assert ToolUses(parse, calls)[1..] == ToolUses(parse, calls[1..]);
      ToolUseIds(parse, calls[1..]);
      assert CallIds(calls) == [calls[0].id] + CallIds(calls[1..]);
    }
  }

  /** A message that is no tool result keeps its calls, id by id, unless it is dropped,
      which happens to messages without calls only. */
  lemma {:induction false} ConvertedCalls(parse: string -> Option<string>, m: Message)
    requires !m.role.Tool?
    ensures var out := ConvertOne(parse, m);
            var calls := CallsOf(m);
            && |out| <= 1
            && (out == [] ==> calls == [])
            && (out != [] ==> Results(out[0]) == [] && Uses(out[0]) == CallIds(calls))
  {
    NoIds(TextBlocks(m.content));
    if m.role.User? {
      ImagesOnly(m.imageUrls);
      NoIds(ImageBlocks(m.imageUrls) + TextBlocks(m.content));
    }
    if m.role.Assistant? && m.toolCalls.Some? {
      ToolUseIds(parse, m.toolCalls.value);
      IdsConcat(TextBlocks(m.content), ToolUses(parse, m.toolCalls.value));
    }
  }

  lemma {:induction false} ConvertedAnswer(parse: string -> Option<string>, m: Message, call: ToolCall)
    requires AnswersCall(m, call)
    ensures |ConvertOne(parse, m)| == 1 && AnswersUse(ConvertOne(parse, m)[0], call.id)
  {
    var block := ToolResult(call.id, m.content.GetOr(""));
    assert [block][1..] == [];
    assert ResultIds([block]) == [call.id] + [];
    assert UseIds([block]) == [];
  }

  lemma {:induction false} ConvertedAnswers(parse: string -> Option<string>, results: seq<Message>,
                                            calls: seq<ToolCall>)
    requires Answers(results, calls)
    ensures var out := Convert(parse, results);
            && |out| == |calls|
            && forall k :: 0 <= k < |calls| ==> AnswersUse(out[k], CallIds(calls)[k])
    decreases |results|
  {
    if results != [] {
      var k := |results| - 1;
      ConvertedAnswer(parse, results[k], calls[k]);
      assert forall j :: 0 <= j < k ==> AnswersCall(results[j], calls[j]);
      ConvertedAnswers(parse, results[..k], calls[..k]);
      assert CallIds(calls)[..k] == CallIds(calls[..k]);
      var before := Convert(parse, results[..k]);
      assert Convert(parse, results) == before + ConvertOne(parse, results[k]);
      forall j | 0 <= j < k ensures AnswersUse((before + ConvertOne(parse, results[k]))[j], CallIds(calls)[j]) {
        assert AnswersUse(before[j], CallIds(calls[..k])[j]);
      }
    }
  }

  lemma {:induction false} BlockAnswered(head: AnthropicMessage, answers: seq<AnthropicMessage>,
                                         rest: seq<AnthropicMessage>)
    requires Results(head) == [] && |answers| == |Uses(head)|
    requires forall k :: 0 <= k < |answers| ==> AnswersUse(answers[k], Uses(head)[k])
    requires UsesAnswered(rest)
    ensures UsesAnswered([head] + (answers + rest))
  {
    var all := [head] + (answers + rest);
    assert forall k :: 0 <= k < |answers| ==> all[1 + k] == answers[k];
    assert all[1 + |answers|..] == rest;
  }

  lemma {:induction false} ConvertHead(parse: string -> Option<string>, m: Message, ms: seq<Message>)
    ensures Convert(parse, [m] + ms) == ConvertOne(parse, m) + Convert(parse, ms)
  {
    assert [m][..0] == [];
    assert Convert(parse, [m]) == Convert(parse, [m][..0]) + ConvertOne(parse, m);
    ConvertConcat(parse, [m], ms);
  }

  lemma {:induction false} ConvertedBlock(parse: string -> Option<string>, m: Message, answers: seq<Message>,
                                          rest: seq<Message>)
    requires !m.role.Tool? && Answers(answers, CallsOf(m)) && UsesAnswered(Convert(parse, rest))
    ensures UsesAnswered(Convert(parse, [m] + (answers + rest)))
  {
    ConvertedCalls(parse, m);
    ConvertedAnswers(parse, answers, CallsOf(m));
    ConvertHead(parse, m, answers + rest);
    ConvertConcat(parse, answers, rest);
    var out := ConvertOne(parse, m);
    if out != [] {
      BlockAnswered(out[0], Convert(parse, answers), Convert(parse, rest));
      assert out == [out[0]];
    } else {
      assert Convert(parse, answers) == [];
      assert out + ([] + Convert(parse, rest)) == Convert(parse, rest);
    }
  }

  /** Every paired conversation is translated into one where each tool use is answered by
      exactly the following tool results, in the same order. */
  lemma {:induction false} ConvertKeepsPairing(parse: string -> Option<string>, ms: seq<Message>)
    requires Paired(ms)
    ensures UsesAnswered(Convert(parse, ms))
    decreases |ms|
  {
    if ms != [] {
      var n := 1 + |CallsOf(ms[0])|;
      ConvertKeepsPairing(parse, ms[n..]);
      ConvertedBlock(parse, ms[0], ms[1..n], ms[n..]);
      SplitBlock(ms, n);
    }
  }

  lemma {:induction false} SplitBlock<T>(s: seq<T>, n: nat)
    requires 1 <= n <= |s|
    ensures s == [s[0]] + (s[1..n] + s[n..])
  {
  }

  // ----- Assembling a streamed completion -----

  datatype Event =
    | ToolStart(id: string, name: string)
    | TextDelta(text: string)
    | InputDelta(partial: string)
    | BlockStop
    | MessageStart(inputTokens: nat)
    | MessageDelta(outputTokens: nat)
    | OtherEvent

  datatype StreamState = StreamState(
    content: string,
    toolCalls: seq<ToolCall>,
    current: Option<nat>,
    promptTokens: nat,
    completionTokens: nat,
    events: seq<Streaming.StreamEvent>
  )

  const STREAM_START := StreamState("", [], None, 0, 0, [])

  function WithInput(call: ToolCall, partial: string): ToolCall {
    call.(func := FunctionCall(call.func.name, call.func.arguments + partial))
  }

  function OnEvent(s: StreamState, e: Event): StreamState {
    match e
    case ToolStart(id, name) =>
      s.(toolCalls := s.toolCalls + [ToolCall(id, "function", FunctionCall(name, ""))],
         current := Some(|s.toolCalls|),
         events := s.events + [Streaming.ToolCallStart(name)])
    case TextDelta(text) => s.(content := s.content + text, events := s.events + [Streaming.ContentDelta(text)])
    case InputDelta(partial) =>
      if s.current.Some? && s.current.value < |s.toolCalls| then
        s.(toolCalls := s.toolCalls[s.current.value := WithInput(s.toolCalls[s.current.value], partial)])
      else s
    case BlockStop => s.(current := None)
    case MessageStart(n) => s.(promptTokens := Streaming.AsU32(n))
    case MessageDelta(n) => s.(completionTokens := Streaming.AsU32(n))
    case OtherEvent => s
  }

  function OnEvents(s: StreamState, es: seq<Event>): StreamState
    decreases |es|
  {
    if es == [] then s else OnEvents(OnEvent(s, es[0]), es[1..])
  }

  /** The input pieces up to the end of the current block. */
  function InputUntilStop(es: seq<Event>): string {
    if es == [] || es[0].BlockStop? || es[0].ToolStart? then ""
    else (if es[0].InputDelta? then es[0].partial else "") + InputUntilStop(es[1..])
  }

  /** The calls an event sequence describes: one per tool start, with the input pieces of
      its own block. */
  function CallsOfEvents(es: seq<Event>): seq<ToolCall> {
    if es == [] then []
    else if es[0].ToolStart? then
      [ToolCall(es[0].id, "function", FunctionCall(es[0].name, InputUntilStop(es[1..])))] + CallsOfEvents(es[1..])
    else CallsOfEvents(es[1..])
  }

  function TextOfEvents(es: seq<Event>): string {
    if es == [] then "" else (if es[0].TextDelta? then es[0].text else "") + TextOfEvents(es[1..])
  }

  /** What the user interface is told, event by event. */
  function Emitted(es: seq<Event>): seq<Streaming.StreamEvent> {
    if es == [] then []
    else
      var rest := Emitted(es[1..]);
      match es[0]
      case ToolStart(_, name) => [Streaming.ToolCallStart(name)] + rest
      case TextDelta(text) => [Streaming.ContentDelta(text)] + rest
      case _ => rest
  }

  /** The last token counts reported, as 32-bit numbers. */
  function InputTokens(es: seq<Event>, before: nat): nat {
    if es == [] then before
    else InputTokens(es[1..], if es[0].MessageStart? then Streaming.AsU32(es[0].inputTokens) else before)
  }

  function OutputTokens(es: seq<Event>, before: nat): nat {
    if es == [] then before
    else OutputTokens(es[1..], if es[0].MessageDelta? then Streaming.AsU32(es[0].outputTokens) else before)
  }

  /** The reported usage, or an estimate of four characters a token if none was reported. */
  function Usage(input: nat, output: nat, content: string, sent: seq<Message>): Streaming.Usage {
    var total := Streaming.AsU32(input + output);
    if total != 0 then Streaming.Usage(input, output, total)
    else
      var prompt := Streaming.AsU32(Max(Streaming.ContentLength(sent) / 4, 1));
      var completion := Streaming.AsU32(Max(|content| / 4, 1));
      Streaming.Usage(prompt, completion, Streaming.AsU32(prompt + completion))
  }

  function Completed(calls: seq<ToolCall>, content: string): Completion {
    if calls != [] then ToolCalls(calls, None) else Text(content, None)
  }

  /** What a stream of these events results in. */
  function ResultOfEvents(es: seq<Event>, sent: seq<Message>): Streaming.StreamResult {
    Streaming.Finished(Completed(CallsOfEvents(es), TextOfEvents(es)),
                       Usage(InputTokens(es, 0), OutputTokens(es, 0), TextOfEvents(es), sent),
                       Emitted(es))
  }

  /** The open block, if there is one, belongs to the latest call. */
  predicate CurrentIsLast(s: StreamState) {
    s.current.Some? ==> s.toolCalls != [] && s.current.value == |s.toolCalls| - 1
  }

  /** The calls of a state once the rest of its open block is read. */
  function CallsWithRest(s: StreamState, es: seq<Event>): seq<ToolCall>
    requires CurrentIsLast(s)
  {
    if s.current.None? then s.toolCalls
    else
      var k := |s.toolCalls| - 1;
      s.toolCalls[..k] + [WithInput(s.toolCalls[k], InputUntilStop(es))]
  }

  lemma {:induction false} InputStep(e: Event, es: seq<Event>)
    ensures InputUntilStop([e] + es) ==
            if e.BlockStop? || e.ToolStart? then ""
            else if e.InputDelta? then e.partial + InputUntilStop(es)
            else InputUntilStop(es)
  {
    assert ([e] + es)[1..] == es;
    assert "" + InputUntilStop(es) == InputUntilStop(es);
  }

  lemma {:induction false} NoMoreInput(calls: seq<ToolCall>)
    requires calls != []
    ensures var k := |calls| - 1; calls[..k] + [WithInput(calls[k], "")] == calls
  {
    var k := |calls| - 1;
    assert calls[k].func.arguments + "" == calls[k].func.arguments;
  }

  lemma {:induction false} StartAssembles(s: StreamState, e: Event, es: seq<Event>)
    requires CurrentIsLast(s) && e.ToolStart?
    ensures CallsWithRest(OnEvent(s, e), es) + CallsOfEvents(es)
         == CallsWithRest(s, [e] + es) + CallsOfEvents([e] + es)
  {
    var t := OnEvent(s, e);
    var call := ToolCall(e.id, "function", FunctionCall(e.name, InputUntilStop(es)));
    InputStep(e, es);
    if s.current.Some? {
      NoMoreInput(s.toolCalls);
    }
    assert CallsWithRest(s, [e] + es) == s.toolCalls;
    assert t.toolCalls[..|t.toolCalls| - 1] == s.toolCalls;
    assert "" + InputUntilStop(es) == InputUntilStop(es);
    assert CallsWithRest(t, es) == s.toolCalls + [call];
    assert ([e] + es)[1..] == es;
    ConcatAssociative(s.toolCalls, [call], CallsOfEvents(es));
  }

  lemma {:induction false} OpenBlockAssembles(s: StreamState, e: Event, es: seq<Event>)
    requires CurrentIsLast(s) && s.current.Some? && !e.ToolStart?
    ensures CurrentIsLast(OnEvent(s, e))
    ensures CallsWithRest(OnEvent(s, e), es) == CallsWithRest(s, [e] + es)
  {
    InputStep(e, es);
    var k := |s.toolCalls| - 1;
    if e.BlockStop? {
      NoMoreInput(s.toolCalls);
    } else if e.InputDelta? {
      ConcatAssociative(s.toolCalls[k].func.arguments, e.partial, InputUntilStop(es));
    }
  }

  lemma {:induction false} OneEventAssembles(s: StreamState, e: Event, es: seq<Event>)
    requires CurrentIsLast(s)
    ensures CurrentIsLast(OnEvent(s, e))
    ensures CallsWithRest(OnEvent(s, e), es) + CallsOfEvents(es)
         == CallsWithRest(s, [e] + es) + CallsOfEvents([e] + es)
  {
    if e.ToolStart? {
      StartAssembles(s, e, es);
    } else {
      assert ([e] + es)[1..] == es;
      if s.current.Some? {
        OpenBlockAssembles(s, e, es);
      }
    }
  }

  /** The stream state machine yields exactly the described calls and text: each call has
      the input pieces of its own block, and stray pieces outside any block are dropped. */
  lemma {:induction false} EventsAssemble(s: StreamState, es: seq<Event>)
    requires CurrentIsLast(s)
    ensures OnEvents(s, es).toolCalls == CallsWithRest(s, es) + CallsOfEvents(es)
    ensures OnEvents(s, es).content == s.content + TextOfEvents(es)
    decreases |es|
  {
    if es == [] {
      if s.current.Some? {
        NoMoreInput(s.toolCalls);
      }
    } else {
      assert es == [es[0]] + es[1..];
      OneEventAssembles(s, es[0], es[1..]);
      EventsAssemble(OnEvent(s, es[0]), es[1..]);
    }
  }

  lemma {:induction false} EventsEmit(s: StreamState, es: seq<Event>)
    ensures OnEvents(s, es).events == s.events + Emitted(es)
    ensures OnEvents(s, es).promptTokens == InputTokens(es, s.promptTokens)
    ensures OnEvents(s, es).completionTokens == OutputTokens(es, s.completionTokens)
    decreases |es|
  {
    if es != [] {
      EventsEmit(OnEvent(s, es[0]), es[1..]);
      ConcatAssociative(s.events, Emitted(es[..1]), Emitted(es[1..]));
      assert es[..1][1..] == [];
    }
  }

  /** The text deltas told to the user interface are the content, in order. */
  lemma {:induction false} EmittedTextIsContent(es: seq<Event>)
    ensures Streaming.ContentEvents(Emitted(es)) == TextOfEvents(es)
    decreases |es|
  {
    if es != [] {
      EmittedTextIsContent(es[1..]);
      match es[0]
      case ToolStart(_, name) => FirstEvent(Streaming.ToolCallStart(name), Emitted(es[1..]));
      case TextDelta(text) => FirstEvent(Streaming.ContentDelta(text), Emitted(es[1..]));
      case _ =>
    }
  }

  lemma {:induction false} FirstEvent(e: Streaming.StreamEvent, rest: seq<Streaming.StreamEvent>)
    ensures Streaming.ContentEvents([e] + rest)
         == (match e case ContentDelta(t) => t case _ => "") + Streaming.ContentEvents(rest)
    decreases |rest|
  {
    if rest == [] {
      assert ([e] + rest)[..0] == [];
    } else {
      var k := |rest| - 1;
      assert ([e] + rest)[..k + 1] == [e] + rest[..k];
      FirstEvent(e, rest[..k]);
    }
  }

  /** The event a line carries, if any; `parse` is the JSON parser. */
  function EventOf(parse: string -> Option<Event>, line: string): Option<Event> {
    var l := Trim(line);
    if l == "" || "event:" <= l then None
    else if "data: " <= l then parse(l[6..])
    else None
  }

  function EventsOf(parse: string -> Option<Event>, lines: seq<string>): seq<Event> {
    if lines == [] then []
    else (match EventOf(parse, lines[0]) case None => [] case Some(e) => [e]) + EventsOf(parse, lines[1..])
  }

  lemma {:induction false} EventsOfConcat(parse: string -> Option<Event>, a: seq<string>, b: seq<string>)
    ensures EventsOf(parse, a + b) == EventsOf(parse, a) + EventsOf(parse, b)
    decreases |a|
  {
    if a == [] {
      assert a + b == b;
    } else {
      assert (a + b)[1..] == a[1..] + b;
      EventsOfConcat(parse, a[1..], b);
    }
  }

  lemma {:induction false} OnEventsConcat(s: StreamState, a: seq<Event>, b: seq<Event>)
    ensures OnEvents(s, a + b) == OnEvents(OnEvents(s, a), b)
    decreases |a|
  {
    if a == [] {
      assert a + b == b;
    } else {
      assert (a + b)[1..] == a[1..] + b;
      OnEventsConcat(OnEvent(s, a[0]), a[1..], b);
    }
  }

  /** Take every complete line from the front of the buffer. */
  method DrainLines(parse: string -> Option<Event>, s: StreamState, text: string)
    returns (t: StreamState, buffer: string)
    ensures t == OnEvents(s, EventsOf(parse, CompleteLines(text)))
    ensures buffer == Rest(text)
  {
    t := s;
    buffer := text;
    while FirstNewline(buffer) < |buffer|
      invariant OnEvents(t, EventsOf(parse, CompleteLines(buffer))) == OnEvents(s, EventsOf(parse, CompleteLines(text)))
      invariant Rest(buffer) == Rest(text)
      decreases |buffer|
    {
      var lineEnd := FirstNewline(buffer);
      LinesStep(buffer);
      EventsOfConcat(parse, [buffer[..lineEnd]], CompleteLines(buffer[lineEnd + 1..]));
      assert EventsOf(parse, [buffer[..lineEnd]]) ==
             match EventOf(parse, buffer[..lineEnd]) case None => [] case Some(e) => [e];
      var event := EventOf(parse, buffer[..lineEnd]);
      OnEventsConcat(t, EventsOf(parse, [buffer[..lineEnd]]), EventsOf(parse, CompleteLines(buffer[lineEnd + 1..])));
      if event.Some? {
        assert [event.value][1..] == [];
        t := OnEvent(t, event.value);
      }
      buffer := buffer[lineEnd + 1..];
    }
  }

  /** Reading an event stream to its end; a chunk None is a read error. However the text is
      cut into chunks, the result is that of its events, in order. */
  method ReadStream(parse: string -> Option<Event>, chunks: seq<Option<string>>, sent: seq<Message>)
    returns (r: Streaming.StreamResult)
    ensures r.ReadError? <==> None in chunks
    ensures None !in chunks ==> r == ResultOfEvents(EventsOf(parse, CompleteLines(StreamText(chunks))), sent)
  {
    var state := STREAM_START;
    var buffer := "";
    ghost var text := "";
    for i := 0 to |chunks|
      invariant None !in chunks[..i]
      invariant text == StreamText(chunks[..i])
      invariant state == OnEvents(STREAM_START, EventsOf(parse, CompleteLines(text)))
      invariant buffer == Rest(text)
    {
      if chunks[i].None? {
        return Streaming.ReadError;
      }
      StreamTextStep(chunks, i);
      ReadOneMore(parse, text, chunks[i].value);
      state, buffer := DrainLines(parse, state, buffer + chunks[i].value);
      text := text + chunks[i].value;
    }
    TakeAll(chunks);
    StateIsItsEvents(EventsOf(parse, CompleteLines(text)));
    r := Streaming.Finished(Completed(state.toolCalls, state.content),
                            Usage(state.promptTokens, state.completionTokens, state.content, sent),
                            state.events);
  }

  lemma {:induction false} ReadOneMore(parse: string -> Option<Event>, text: string, chunk: string)
    ensures OnEvents(OnEvents(STREAM_START, EventsOf(parse, CompleteLines(text))),
                     EventsOf(parse, CompleteLines(Rest(text) + chunk)))
         == OnEvents(STREAM_START, EventsOf(parse, CompleteLines(text + chunk)))
    ensures Rest(Rest(text) + chunk) == Rest(text + chunk)
  {
    ReadInTwoSteps(text, chunk);
    EventsOfConcat(parse, CompleteLines(text), CompleteLines(Rest(text) + chunk));
    OnEventsConcat(STREAM_START, EventsOf(parse, CompleteLines(text)),
                   EventsOf(parse, CompleteLines(Rest(text) + chunk)));
  }

  lemma {:induction false} StateIsItsEvents(es: seq<Event>)
    ensures var s := OnEvents(STREAM_START, es);
            && s.toolCalls == CallsOfEvents(es) && s.content == TextOfEvents(es) && s.events == Emitted(es)
            && s.promptTokens == InputTokens(es, 0) && s.completionTokens == OutputTokens(es, 0)
  {
    EventsAssemble(STREAM_START, es);
    EventsEmit(STREAM_START, es);
  }

  // ----- What the translated messages and results say -----

  /** A data URL is read as its type and its data. */
  lemma {:induction false} DataUrlRead(mediaType: string, data: string)
    requires ',' !in mediaType
    ensures ParseDataUrl("data:" + (mediaType + (";base64" + ("," + data)))) == Some((mediaType, data))
  {
    var header := mediaType + ";base64";
    var url := "data:" + (mediaType + (";base64" + ("," + data)));
    assert url[5..] == header + ("," + data);
    IndexIs(header, "," + data);
    assert (header + ("," + data))[..|header|] == header;
    assert (header + ("," + data))[|header| + 1..] == data;
    assert header[|header| - 7..] == ";base64" && header[..|header| - 7] == mediaType;
  }

  lemma {:induction false} IndexIs(a: string, b: string)
    requires ',' !in a && b != "" && b[0] == ','
    ensures IndexOf(a + b, ',') == |a|
    decreases |a|
  {
    if a == "" {
      assert a + b == b;
    } else {
      assert (a + b)[1..] == a[1..] + b;
      IndexIs(a[1..], b);
    }
  }

  /** The one message a message becomes, its role and its blocks or text. */
  predicate Becomes(parse: string -> Option<string>, m: Message, role: string, content: Content) {
    ConvertOne(parse, m) == [AnthropicMessage(role, content)]
  }

  /** Plain texts keep their text and their side; system messages go elsewhere. */
  lemma {:induction false} TextsSurvive(parse: string -> Option<string>, m: Message)
    requires m.imageUrls == [] && m.toolCalls == None && m.content.Some?
    ensures m.role.User? ==> Becomes(parse, m, "user", PlainText(m.content.value))
    ensures m.role.Assistant? ==> Becomes(parse, m, "assistant", PlainText(m.content.value))
    ensures m.role.System? ==> ConvertOne(parse, m) == []
  {
  }

  /** A call keeps its id and name, and its arguments as the parser reads them, in call order
      and behind the text of the message if there is one. */
  lemma {:induction false} CallsSurvive(parse: string -> Option<string>, m: Message)
    requires m.role.Assistant? && m.toolCalls.Some?
    ensures var text, calls := m.content.GetOr(""), m.toolCalls.value;
            var skip := if text == "" then 0 else 1;
            exists blocks: seq<ContentBlock> ::
              && Becomes(parse, m, "assistant", Blocks(blocks)) && |blocks| == skip + |calls|
              && (text != "" ==> blocks[0] == TextBlock(text))
              && forall i :: 0 <= i < |calls| ==> IsUse(blocks[skip + i], calls[i], parse(calls[i].func.arguments))
  {
    var calls := m.toolCalls.value;
    var texts, uses := TextBlocks(m.content), ToolUses(parse, calls);
    assert Becomes(parse, m, "assistant", Blocks(texts + uses));
    forall i | 0 <= i < |calls|
      ensures IsUse((texts + uses)[|texts| + i], calls[i], parse(calls[i].func.arguments))
    {
      assert (texts + uses)[|texts| + i] == uses[i];
    }
  }

  /** A result keeps its call and its text. */
  lemma {:induction false} ResultsSurvive(parse: string -> Option<string>, m: Message)
    requires m.role.Tool? && m.toolCallId.Some? && m.content.Some?
    ensures Becomes(parse, m, "user", Blocks([ToolResult(m.toolCallId.value, m.content.value)]))
  {
  }

  /** Arguments the parser rejects become an empty object. */
  predicate IsUse(b: ContentBlock, call: ToolCall, input: Option<string>) {
    b.ToolUse? && b.id == call.id && b.name == call.func.name && b.input == if input.Some? then input.value else "{}"
  }

  /** Images come first, one block for every data URL, in order; then the text. */
  lemma {:induction false} ImagesSurvive(parse: string -> Option<string>, m: Message)
    requires m.role.User? && m.imageUrls != []
    requires forall i :: 0 <= i < |m.imageUrls| ==> ParseDataUrl(m.imageUrls[i]).Some?
    ensures var n, text := |m.imageUrls|, m.content.GetOr("");
            exists blocks: seq<ContentBlock> ::
              && Becomes(parse, m, "user", Blocks(blocks)) && |blocks| == n + (if text == "" then 0 else 1)
              && (text != "" ==> blocks[n] == TextBlock(text))
              && forall i :: 0 <= i < n ==>
                   var image := ParseDataUrl(m.imageUrls[i]).value;
                   blocks[i] == ImageBlock(image.0, image.1)
  {
    ImagesInOrder(m.imageUrls);
    var blocks := ImageBlocks(m.imageUrls) + TextBlocks(m.content);
    assert Becomes(parse, m, "user", Blocks(blocks));
  }

  lemma {:induction false} ImagesInOrder(urls: seq<string>)
    requires forall i :: 0 <= i < |urls| ==> ParseDataUrl(urls[i]).Some?
    ensures |ImageBlocks(urls)| == |urls|
    ensures forall i :: 0 <= i < |urls| ==>
              ImageBlocks(urls)[i] == ImageBlock(ParseDataUrl(urls[i]).value.0, ParseDataUrl(urls[i]).value.1)
    decreases |urls|
  {
    if urls != [] {
      ImagesInOrder(urls[..|urls| - 1]);
    }
  }

  /** The completion of a stream: its text if no tool was started, and otherwise its calls. */
  lemma {:induction false} CompletionOfEvents(es: seq<Event>, sent: seq<Message>)
    ensures var c := ResultOfEvents(es, sent).completion;
            && c.reasoning == None
            && (c.ToolCalls? <==> exists e :: e in es && e.ToolStart?)
            && (c.ToolCalls? ==> c.calls == CallsOfEvents(es))
            && (c.Text? ==> c.content == TextOfEvents(es))
  {
    CallsIffStarts(es);
  }

  lemma {:induction false} CallsIffStarts(es: seq<Event>)
    ensures CallsOfEvents(es) != [] <==> exists e :: e in es && e.ToolStart?
    decreases |es|
  {
    if es != [] {
      CallsIffStarts(es[1..]);
      assert es[0] in es && forall e :: e in es <==> e == es[0] || e in es[1..];
    }
  }

  /** The usage of a stream: the last counts reported, or an estimate if their sum is 0. */
  lemma {:induction false} UsageOfEvents(es: seq<Event>, sent: seq<Message>)
    ensures var u := ResultOfEvents(es, sent).usage;
            var reported := Streaming.AsU32(InputTokens(es, 0) + OutputTokens(es, 0));
            && (reported != 0 ==>
                  u.prompt == InputTokens(es, 0) && u.completion == OutputTokens(es, 0) && u.total == reported)
            && (reported == 0 ==>
                  && u.prompt == Streaming.AsU32(Max(Streaming.ContentLength(sent) / 4, 1))
                  && u.completion == Streaming.AsU32(Max(|TextOfEvents(es)| / 4, 1))
                  && u.total == Streaming.AsU32(u.prompt + u.completion))
  {
  }

  /** A line adds what the parser makes of its data to the events of the lines before it;
      a line without data adds nothing. */
  lemma {:induction false} LinesCarry(parse: string -> Option<Event>, before: seq<string>,
                                      a: string, l: string, b: string)
    requires AllSpace(a) && AllSpace(b) && l != "" && !IsSpace(l[0]) && !IsSpace(l[|l| - 1])
    ensures var events := EventsOf(parse, before + [a + l + b]);
            if "data: " <= l && parse(l[6..]).Some? then events == EventsOf(parse, before) + [parse(l[6..]).value]
            else events == EventsOf(parse, before)
  {
    EventsOfConcat(parse, before, [a + l + b]);
    assert [a + l + b][1..] == [];
    TrimTakesSpace(a, l, b);
    if "data: " <= l {
      assert l[0] == 'd';
    }
  }
}
