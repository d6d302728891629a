/** The conversation types of crates/openclaw-agent/src/llm/mod.rs, and what it means
    for a conversation to be acceptable to a provider: every tool call is answered
    exactly once, directly after the message that made it, in call order. */
module Messages {
  import opened Common

  datatype Role = System | User | Assistant | Tool

  datatype FunctionCall = FunctionCall(name: string, arguments: string)

  datatype ToolCall = ToolCall(id: string, callType: string, func: FunctionCall)

  datatype Message = Message(
    role: Role,
    content: Option<string>,
    reasoningContent: Option<string>,
    toolCallId: Option<string>,
    toolCalls: Option<seq<ToolCall>>,
    imageUrls: seq<string>
  )

  /** What a provider answers: a text, or calls to make. */
  datatype Completion =
    | Text(content: string, reasoning: Option<string>)
    | ToolCalls(calls: seq<ToolCall>, reasoning: Option<string>)

  function SystemMessage(content: string): Message {
    Message(System, Some(content), None, None, None, [])
  }

  function UserMessage(content: string): Message {
    Message(User, Some(content), None, None, None, [])
  }

  function UserMessageWithImages(content: string, imageUrls: seq<string>): Message {
    Message(User, Some(content), None, None, None, imageUrls)
  }

  function AssistantMessage(content: string): Message {
    Message(Assistant, Some(content), None, None, None, [])
  }

  function AssistantToolCalls(calls: seq<ToolCall>, reasoning: Option<string>): Message {
    Message(Assistant, None, reasoning, None, Some(calls), [])
  }

  function ToolResultMessage(callId: string, content: string): Message {
    Message(Tool, Some(content), None, Some(callId), None, [])
  }

  /** The tool calls a message makes; only assistant messages make any. */
  function CallsOf(m: Message): seq<ToolCall> {
    if m.role.Assistant? && m.toolCalls.Some? then m.toolCalls.value else []
  }

  /** A message that neither makes nor answers a tool call. */
  predicate IsPlain(m: Message) {
    !m.role.Tool? && CallsOf(m) == []
  }

  predicate AnswersCall(m: Message, call: ToolCall) {
    m.role.Tool? && m.toolCallId == Some(call.id)
  }

  /** `results` answers `calls` one for one, under each call's own id, in call order. */
  predicate Answers(results: seq<Message>, calls: seq<ToolCall>) {
    && |results| == |calls|
    && forall k :: 0 <= k < |calls| ==> AnswersCall(results[k], calls[k])
  }

  /** The conversation is a sequence of blocks: a message that is no tool result,
      followed by exactly the answers to the calls it makes. */
  predicate Paired(ms: seq<Message>) {
    ms == [] ||
    (&& !ms[0].role.Tool?
     && |CallsOf(ms[0])| < |ms|
     && Answers(ms[1..1 + |CallsOf(ms[0])|], CallsOf(ms[0]))
     && Paired(ms[1 + |CallsOf(ms[0])|..]))
  }

  /** Message j answers a call made by the message at i. */
  predicate Owns(ms: seq<Message>, i: nat, j: nat)
    requires i < |ms| && j < |ms|
  {
    i < j <= i + |CallsOf(ms[i])|
  }

  /** The k-th call made at i is answered at i + 1 + k. */
  predicate CallAnswered(ms: seq<Message>, i: nat, k: nat)
    requires i < |ms| && k < |CallsOf(ms[i])|
  {
    i + 1 + k < |ms| && AnswersCall(ms[i + 1 + k], CallsOf(ms[i])[k])
  }

  predicate HasOwner(ms: seq<Message>, j: nat)
    requires j < |ms|
  {
    exists i :: 0 <= i < j && Owns(ms, i, j)
  }

  /** The same requirement position by position: every call is answered at its place, and
      every tool message lies inside the answers of some earlier message. */
  predicate PairedByIndex(ms: seq<Message>) {
    && (forall i, k :: 0 <= i < |ms| && 0 <= k < |CallsOf(ms[i])| ==> CallAnswered(ms, i, k))
    && (forall j :: 0 <= j < |ms| && ms[j].role.Tool? ==> HasOwner(ms, j))
  }

  /** In a paired conversation the messages answering the first one are tool results. */
  lemma {:induction false} FirstAnswers(ms: seq<Message>, j: nat)
    requires Paired(ms) && ms != [] && 1 <= j <= |CallsOf(ms[0])|
    ensures AnswersCall(ms[j], CallsOf(ms[0])[j - 1])
  {
    assert ms[1..1 + |CallsOf(ms[0])|][j - 1] == ms[j];
  }

  lemma {:induction false} PairedAnswersCalls(ms: seq<Message>, i: nat, k: nat)
    requires Paired(ms) && i < |ms| && k < |CallsOf(ms[i])|
    ensures CallAnswered(ms, i, k)
    decreases |ms|
  {
    var n := 1 + |CallsOf(ms[0])|;
    if i == 0 {
      FirstAnswers(ms, k + 1);
    } else if i < n {
      FirstAnswers(ms, i);
    } else {
      assert ms[n..][i - n] == ms[i];
      PairedAnswersCalls(ms[n..], i - n, k);
    }
  }

  lemma {:induction false} PairedHasOwner(ms: seq<Message>, j: nat)
    requires Paired(ms) && j < |ms| && ms[j].role.Tool?
    ensures HasOwner(ms, j)
    decreases |ms|
  {
    var n := 1 + |CallsOf(ms[0])|;
    if j < n {
      assert Owns(ms, 0, j);
    } else {
      PairedHasOwner(ms[n..], j - n);
      var i :| 0 <= i < j - n && Owns(ms[n..], i, j - n);
      assert Owns(ms, i + n, j);
    }
  }

  lemma {:induction false} PairedImpliesByIndex(ms: seq<Message>)
    requires Paired(ms)
    ensures PairedByIndex(ms)
  {
    forall i, k | 0 <= i < |ms| && 0 <= k < |CallsOf(ms[i])| ensures CallAnswered(ms, i, k) {
      PairedAnswersCalls(ms, i, k);
    }
    forall j | 0 <= j < |ms| && ms[j].role.Tool? ensures HasOwner(ms, j) {
      PairedHasOwner(ms, j);
    }
  }

  lemma {:induction false} ByIndexFirstBlock(ms: seq<Message>)
    requires PairedByIndex(ms) && ms != []
    ensures !ms[0].role.Tool? && |CallsOf(ms[0])| < |ms|
    ensures Answers(ms[1..1 + |CallsOf(ms[0])|], CallsOf(ms[0]))
  {
    assert ms[0].role.Tool? ==> HasOwner(ms, 0);
    var calls := CallsOf(ms[0]);
    assert |calls| > 0 ==> CallAnswered(ms, 0, |calls| - 1);
    forall k | 0 <= k < |calls| ensures AnswersCall(ms[1..1 + |calls|][k], calls[k]) {
      assert CallAnswered(ms, 0, k);
    }
  }

  lemma {:induction false} ByIndexRest(ms: seq<Message>)
    requires PairedByIndex(ms) && ms != [] && |CallsOf(ms[0])| < |ms|
    ensures PairedByIndex(ms[1 + |CallsOf(ms[0])|..])
  {
    var n := 1 + |CallsOf(ms[0])|;
    var rest := ms[n..];
    forall t | 1 <= t < n ensures ms[t].role.Tool? {
      assert CallAnswered(ms, 0, t - 1);
    }
    forall i, k | 0 <= i < |rest| && 0 <= k < |CallsOf(rest[i])| ensures CallAnswered(rest, i, k) {
      assert CallAnswered(ms, i + n, k);
    }
    forall j | 0 <= j < |rest| && rest[j].role.Tool? ensures HasOwner(rest, j) {
      assert HasOwner(ms, j + n);
      var i :| 0 <= i < j + n && Owns(ms, i, j + n);
      assert Owns(rest, i - n, j);
    }
  }

  lemma {:induction false} ByIndexImpliesPaired(ms: seq<Message>)
    requires PairedByIndex(ms)
    ensures Paired(ms)
    decreases |ms|
  {
    if ms != [] {
      ByIndexFirstBlock(ms);
      ByIndexRest(ms);
      ByIndexImpliesPaired(ms[1 + |CallsOf(ms[0])|..]);
    }
  }

  /** The block structure and the position-by-position requirement are the same thing. */
  lemma {:induction false} PairedIffByIndex(ms: seq<Message>)
    ensures Paired(ms) <==> PairedByIndex(ms)
  {
    if Paired(ms) { PairedImpliesByIndex(ms); }
    if PairedByIndex(ms) { ByIndexImpliesPaired(ms); }
  }

  lemma {:induction false} PairedConcat(a: seq<Message>, b: seq<Message>)
    requires Paired(a) && Paired(b)
    ensures Paired(a + b)
    decreases |a|
  {
    if a == [] {
      assert a + b == b;
    } else {
      var n := 1 + |CallsOf(a[0])|;
      assert (a + b)[1..n] == a[1..n];
      assert (a + b)[n..] == a[n..] + b;
      PairedConcat(a[n..], b);
    }
  }

  lemma {:induction false} PairedPlain(m: Message)
    requires IsPlain(m)
    ensures Paired([m])
  {
    assert Paired([m][1..]);
  }

  lemma {:induction false} PairedBlock(m: Message, results: seq<Message>)
    requires !m.role.Tool? && Answers(results, CallsOf(m))
    ensures Paired([m] + results)
  {
    var block := [m] + results;
    assert block[1..1 + |results|] == results;
    assert block[1 + |results|..] == [];
  }

  lemma {:induction false} PairedSnocPlain(ms: seq<Message>, m: Message)
    requires Paired(ms) && IsPlain(m)
    ensures Paired(ms + [m])
  {
    PairedPlain(m);
    PairedConcat(ms, [m]);
  }

  lemma {:induction false} PlainFront(ms: seq<Message>, m: Message)
    requires Paired(ms) && IsPlain(m)
    ensures Paired([m] + ms)
  {
    PairedPlain(m);
    PairedConcat([m], ms);
  }

  /** A first block that lies within a can be split off a + b. */
  lemma {:induction false} PairedFirstBlock(a: seq<Message>, b: seq<Message>)
    requires a != [] && |CallsOf(a[0])| < |a|
    ensures var n := 1 + |CallsOf(a[0])|;
            Paired(a + b) <==> !a[0].role.Tool? && Answers(a[1..n], CallsOf(a[0])) && Paired(a[n..] + b)
  {
    var n := 1 + |CallsOf(a[0])|;
    assert (a + b)[1..n] == a[1..n];
    assert (a + b)[n..] == a[n..] + b;
  }

  /** Inserting a plain message into a paired conversation keeps it paired exactly when
      the insertion point is not in front of a tool result, that is, not inside the
      answers of some message. */
  lemma {:induction false} PlainInsertion(a: seq<Message>, b: seq<Message>, m: Message)
    requires Paired(a + b) && IsPlain(m)
    ensures Paired(a + ([m] + b)) <==> !(b != [] && b[0].role.Tool?)
    decreases |a|
  {
    if a == [] {
      assert a + b == b && a + ([m] + b) == [m] + b;
      PlainFront(b, m);
    } else if |CallsOf(a[0])| < |a| {
      PairedFirstBlock(a, b);
      PairedFirstBlock(a, [m] + b);
      PlainInsertion(a[1 + |CallsOf(a[0])|..], b, m);
    } else {
      var k := |a|;
      assert (a + b)[k] == b[0] && (a + ([m] + b))[k] == m;
      FirstAnswers(a + b, k);
      if Paired(a + ([m] + b)) {
        FirstAnswers(a + ([m] + b), k);
      }
    }
  }

  /** How many tool results a conversation holds. */
  function ToolMessages(ms: seq<Message>): nat {
    if ms == [] then 0
    else ToolMessages(ms[..|ms| - 1]) + if ms[|ms| - 1].role.Tool? then 1 else 0
  }

  lemma {:induction false} ToolMessagesConcat(a: seq<Message>, b: seq<Message>)
    ensures ToolMessages(a + b) == ToolMessages(a) + ToolMessages(b)
    decreases |b|
  {
    if b == [] {
      assert a + b == a;
    } else {
      assert (a + b)[..|a + b| - 1] == a + b[..|b| - 1];
      ToolMessagesConcat(a, b[..|b| - 1]);
    }
  }

  lemma {:induction false} ToolMessagesAll(ms: seq<Message>)
    requires forall k :: 0 <= k < |ms| ==> ms[k].role.Tool?
    ensures ToolMessages(ms) == |ms|
  {
    if ms != [] {
      ToolMessagesAll(ms[..|ms| - 1]);
    }
  }
}
