/** Whole sessions: each turn reloads the stored history, runs, and appends what its channel
    stores of it. Covers the persistence blocks of the gateway
    (crates/openclaw-gateway/src/handler.rs:726-767 and, alike, discord_handler.rs), voice
    turns (handler.rs:1350-1375) and command-line turns
    (crates/openclaw-cli/src/commands/agent.rs:126-152), turns that are not stored, the
    subagent results the gateway injects into the parent session, the rows the `sessions`
    tool sends to a session (crates/openclaw-agent/src/tools/sessions.rs:175-205), and the
    commands that delete a session. */
module Session {
  import opened Common
  import opened Messages
  import opened History
  import opened LoopRuns
  import opened ToolRound
  import opened Tools
  import opened AgentTurn
  import Anthropic

  /** The roles the `sessions` tool accepts. */
  datatype SentAs = AsUser | AsAssistant | AsSystem

  /** A row that reaches the session from elsewhere. */
  datatype Arrival = SubagentResult(text: string) | SentRow(role: SentAs, text: string)

  /** Where a turn comes from; turns of the HTTP and MCP interfaces are not stored. */
  datatype Channel = Chat | Voice | CommandLine | Unstored

  /** `arrivals` are the rows that arrive while the turn runs: after its reload, and before
      its own rows are stored. `Clears` deletes the session. */
  datatype Step =
    | Turn(
        channel: Channel,
        world: World,
        systemPrompt: string,
        text: string,
        imageUrls: seq<string>,
        script: nat -> RoundInput,
        arrivals: seq<Arrival>
      )
    | Arrives(arrival: Arrival)
    | Clears

  function ArrivalMessage(a: Arrival): (m: Message)
    ensures IsPlain(m)
  {
    match a
    case SubagentResult(text) => AssistantMessage(text)
    case SentRow(AsUser, text) => UserMessage(text)
    case SentRow(AsAssistant, text) => AssistantMessage(text)
    case SentRow(AsSystem, text) => SystemMessage(text)
  }

  function ArrivalMessages(arrivals: seq<Arrival>): seq<Message> {
    seq(|arrivals|, i requires 0 <= i < |arrivals| => ArrivalMessage(arrivals[i]))
  }

  /** The user message of a turn; with images it carries a hint in front of the text. */
  function TurnMessage(text: string, imageUrls: seq<string>): Message {
    if imageUrls == [] then UserMessage(text)
    else UserMessageWithImages(
      "[SYSTEM: " + Decimal(|imageUrls|) + " image(s) attached inline below.]\n\n" + text, imageUrls)
  }

  /** The conversation a turn starts from. */
  function Base(stored: seq<SessionMessage>, systemPrompt: string, text: string, imageUrls: seq<string>): seq<Message> {
    [SystemMessage(systemPrompt)] + LoadedHistory(stored) + [TurnMessage(text, imageUrls)]
  }

  function Response(end: TurnEnd): string {
    match end
    case Answer(content, _) => content
    case Cancelled => "Cancelled by user."
    case RoundLimit => "(Agent reached maximum tool call rounds)"
    case ProviderFailed => ""
  }

  /** What is said instead of an empty response. */
  function Silence(channel: Channel): string {
    if channel.Voice? then "I have nothing to say." else ""
  }

  /** The turn's own messages are stored by the chat channels only. */
  function OwnRows(channel: Channel, added: seq<Message>): seq<Message> {
    if channel.Chat? then added else []
  }

  function ResponseRow(response: string): seq<Message> {
    if response != "" then [AssistantMessage(response)] else []
  }

  /** What is appended after a turn: nothing if the provider failed; otherwise the user's
      text, for chats the turn's messages, and the response if none of these are stored. */
  function Persisted(channel: Channel, text: string, end: TurnEnd, added: seq<Message>): seq<Message> {
    if end.ProviderFailed? || channel.Unstored? then []
    else
      var response := if Response(end) != "" then Response(end) else Silence(channel);
      [UserMessage(text)] + OwnRows(channel, added)
      + if OwnRows(channel, added) == [] then ResponseRow(response) else []
  }

  function TurnResult(stored: seq<SessionMessage>, step: Step): (TurnEnd, TurnState)
    requires step.Turn?
  {
    RunFrom(step.world, Base(stored, step.systemPrompt, step.text, step.imageUrls), START, step.script)
  }

  /** The messages one step appends to the session. */
  function Appended(stored: seq<SessionMessage>, step: Step): seq<Message> {
    match step
    case Turn(channel, _, _, text, _, _, arrivals) =>
      var (end, st) := TurnResult(stored, step);
      ArrivalMessages(arrivals) + Persisted(channel, text, end, st.added)
    case Arrives(arrival) => [ArrivalMessage(arrival)]
    case Clears => []
  }

  function AfterStep(stored: seq<SessionMessage>, step: Step): seq<SessionMessage> {
    if step.Clears? then [] else stored + StoreAll(Appended(stored, step))
  }

  function After(steps: seq<Step>): seq<SessionMessage> {
    if steps == [] then []
    else AfterStep(After(steps[..|steps| - 1]), steps[|steps| - 1])
  }

  lemma {:induction false} StoreAllConcat(a: seq<Message>, b: seq<Message>)
    ensures StoreAll(a + b) == StoreAll(a) + StoreAll(b)
  {
  }

  /** Store the messages of a turn row by row. */
  method AppendRows(stored: seq<SessionMessage>, ms: seq<Message>) returns (stored': seq<SessionMessage>)
    ensures stored' == stored + StoreAll(ms)
  {
    ghost var rows := StoreAll(ms);
    stored' := stored;
    for i := 0 to |ms|
      invariant stored' == stored + rows[..i]
    {
      TakeSnoc(rows, i);
      ConcatAssociative(stored, rows[..i], [rows[i]]);
      stored' := stored' + [Store(ms[i])];
    }
  }

  /** Persist one finished turn. */
  method PersistTurn(channel: Channel, stored: seq<SessionMessage>, text: string, end: TurnEnd, added: seq<Message>)
    returns (stored': seq<SessionMessage>)
    ensures stored' == stored + StoreAll(Persisted(channel, text, end, added))
  {
    if end.ProviderFailed? || channel.Unstored? {
      return stored;
    }
    stored' := AppendRows(stored, [UserMessage(text)]);
    var own := OwnRows(channel, added);
    stored' := AppendRows(stored', own);
    var response := if Response(end) != "" then Response(end) else Silence(channel);
    var fallback := if own == [] then ResponseRow(response) else [];
    stored' := AppendRows(stored', fallback);
    StoreAllConcat([UserMessage(text)] + own, fallback);
    StoreAllConcat([UserMessage(text)], own);
    ConcatAssociative(stored, StoreAll([UserMessage(text)]), StoreAll(own));
    ConcatAssociative(stored, StoreAll([UserMessage(text)] + own), StoreAll(fallback));
  }

  /** The handling of one user message: reload, run, persist. Rows from elsewhere may arrive
      in between. */
  method HandleTurn(stored: seq<SessionMessage>, step: Step) returns (stored': seq<SessionMessage>)
    requires step.Turn?
    ensures stored' == stored + StoreAll(Appended(stored, step))
  {
    var history := LoadSessionHistory(stored);
    var messages := [SystemMessage(step.systemPrompt)] + history + [TurnMessage(step.text, step.imageUrls)];
    var end, st := RunTurn(step.world, messages, step.script);
    var rows := ArrivalMessages(step.arrivals);
    stored' := AppendRows(stored, rows);
    stored' := PersistTurn(step.channel, stored', step.text, end, st.added);
    var own := Persisted(step.channel, step.text, end, st.added);
    StoreAllConcat(rows, own);
    ConcatAssociative(stored, StoreAll(rows), StoreAll(own));
  }

  // ----- Pairing over whole sessions -----

  lemma {:induction false} BasePaired(stored: seq<SessionMessage>, systemPrompt: string, text: string,
                                      imageUrls: seq<string>)
    requires Paired(Restore(stored))
    ensures Paired(Base(stored, systemPrompt, text, imageUrls))
  {
    LoadedHistoryPaired(stored);
    PairedPlain(SystemMessage(systemPrompt));
    PairedConcat([SystemMessage(systemPrompt)], LoadedHistory(stored));
    PairedSnocPlain([SystemMessage(systemPrompt)] + LoadedHistory(stored), TurnMessage(text, imageUrls));
  }

  /** A paired front can be taken off a paired conversation. */
  lemma {:induction false} PairedRest(a: seq<Message>, b: seq<Message>)
    requires Paired(a) && Paired(a + b)
    ensures Paired(b)
    decreases |a|
  {
    if a == [] {
      assert a + b == b;
    } else {
      PairedFirstBlock(a, b);
      PairedRest(a[1 + |CallsOf(a[0])|..], b);
    }
  }

  lemma {:induction false} PersistedPaired(channel: Channel, text: string, end: TurnEnd, added: seq<Message>)
    requires Paired(added)
    ensures Paired(Persisted(channel, text, end, added))
  {
    var own, rows := OwnRows(channel, added), Persisted(channel, text, end, added);
    PairedPlain(UserMessage(text));
    PairedConcat([UserMessage(text)], own);
    if rows != [] && own == [] {
      var response := if Response(end) != "" then Response(end) else Silence(channel);
      PairedSnocPlain([UserMessage(text)] + own, AssistantMessage(response));
      assert [UserMessage(text)] + own + [] == [UserMessage(text)] + own;
    } else if rows != [] {
      assert [UserMessage(text)] + own + [] == [UserMessage(text)] + own;
    }
  }

  lemma {:induction false} ArrivalsPaired(arrivals: seq<Arrival>)
    ensures Paired(ArrivalMessages(arrivals))
    decreases |arrivals|
  {
    if arrivals != [] {
      var k := |arrivals| - 1;
      ArrivalsPaired(arrivals[..k]);
      PairedSnocPlain(ArrivalMessages(arrivals[..k]), ArrivalMessage(arrivals[k]));
      assert ArrivalMessages(arrivals) == ArrivalMessages(arrivals[..k]) + [ArrivalMessage(arrivals[k])];
    }
  }

  lemma {:induction false} AppendedPaired(stored: seq<SessionMessage>, step: Step)
    requires Paired(Restore(stored))
    ensures Paired(Appended(stored, step))
  {
    match step
    case Turn(channel, world, systemPrompt, text, imageUrls, script, arrivals) =>
      var base := Base(stored, systemPrompt, text, imageUrls);
      BasePaired(stored, systemPrompt, text, imageUrls);
      TurnFromStart(world, base, script);
      var (end, st) := RunFrom(world, base, START, script);
      PairedRest(base, st.added);
      PersistedPaired(channel, text, end, st.added);
      ArrivalsPaired(arrivals);
      PairedConcat(ArrivalMessages(arrivals), Persisted(channel, text, end, st.added));
    case Arrives(arrival) =>
      PairedPlain(ArrivalMessage(arrival));
    case Clears =>
  }

  /** What any run of a session stores is paired. */
  lemma {:induction false} SessionsStayPaired(steps: seq<Step>)
    ensures Paired(Restore(After(steps)))
    decreases |steps|
  {
    if steps != [] {
      var k := |steps| - 1;
      SessionsStayPaired(steps[..k]);
      StepStaysPaired(After(steps[..k]), steps[k]);
    }
  }

  lemma {:induction false} StepStaysPaired(stored: seq<SessionMessage>, step: Step)
    requires Paired(Restore(stored))
    ensures Paired(Restore(AfterStep(stored, step)))
  {
    if !step.Clears? {
      var appended := Appended(stored, step);
      AppendedPaired(stored, step);
      RestoreConcat(stored, StoreAll(appended));
      RestoreStored(appended);
      WithoutImagesPaired(appended);
      PairedConcat(Restore(stored), WithoutImages(appended));
    }
  }

  /** In every run of a session, every message list ever sent to a provider is paired:
      each tool call is answered once, in order, directly after the message that makes
      it. With it hold the other guarantees of a turn. */
  lemma {:induction false} EveryRequestPaired(steps: seq<Step>, k: nat)
    requires k < |steps| && steps[k].Turn?
    ensures var stored := After(steps[..k]);
            var base := Base(stored, steps[k].systemPrompt, steps[k].text, steps[k].imageUrls);
            var st := TurnResult(stored, steps[k]).1;
            && RequestsPaired(st.requests)
            && AppendOnly(base, st)
            && |st.requests| <= MAX_TOOL_ROUNDS
            && st.toolCallsMade == ToolMessages(st.added)
            && UserMessages(st.added) <= 1
  {
    var stored := After(steps[..k]);
    var step := steps[k];
    var base := Base(stored, step.systemPrompt, step.text, step.imageUrls);
    SessionsStayPaired(steps[..k]);
    BasePaired(stored, step.systemPrompt, step.text, step.imageUrls);
    TurnFromStart(step.world, base, step.script);
    TurnAppendOnly(step.world, base, START, step.script);
  }

  /** So every request of every run, translated for Anthropic, has each tool use answered by
      exactly the following tool results in the same order. */
  lemma {:induction false} EveryAnthropicRequestAnswered(steps: seq<Step>, k: nat, i: nat,
                                                         parse: string -> Option<string>)
    requires k < |steps| && steps[k].Turn?
    requires i < |TurnResult(After(steps[..k]), steps[k]).1.requests|
    ensures Anthropic.UsesAnswered(Anthropic.Convert(parse, TurnResult(After(steps[..k]), steps[k]).1.requests[i]))
  {
    EveryRequestPaired(steps, k);
    Anthropic.ConvertKeepsPairing(parse, TurnResult(After(steps[..k]), steps[k]).1.requests[i]);
  }

  /** The comments of the source say a turn's messages include the final answer. They do not:
      a non-empty answer is the last thing stored exactly when the turn added no message of
      its own, that is, when the provider's first reply is a text that is not rejected.
      After tool calls or a rejected text the user's answer is not in the session. */
  lemma {:induction false} AnswerStoredIff(stored: seq<SessionMessage>, step: Step)
    requires step.Turn? && step.channel.Chat?
    requires TurnResult(stored, step).0.Answer? && TurnResult(stored, step).0.content != ""
    ensures var (end, st) := TurnResult(stored, step);
            var rows := Appended(stored, step);
            && rows != []
            && (rows[|rows| - 1] == AssistantMessage(end.content) <==> st.added == [])
            && (rows[|rows| - 1] == AssistantMessage(end.content) <==> AnswersAtOnce(step.script(0)))
  {
    var base := Base(stored, step.systemPrompt, step.text, step.imageUrls);
    var (end, st) := RunFrom(step.world, base, START, step.script);
    TurnEndsOpen(step.world, base, START, step.script);
    AddsNothingIff(step.world, base, step.script);
    PersistedLast(step.text, end, st.added);
    LastOfConcat(ArrivalMessages(step.arrivals), Persisted(Chat, step.text, end, st.added));
  }

  lemma {:induction false} LastOfConcat(a: seq<Message>, b: seq<Message>)
    requires b != []
    ensures (a + b)[|a + b| - 1] == b[|b| - 1]
  {
  }

  lemma {:induction false} PersistedLast(text: string, end: TurnEnd, added: seq<Message>)
    requires end.Answer? && end.content != "" && EndsOpen(added)
    ensures var rows := Persisted(Chat, text, end, added);
            rows != [] && (rows[|rows| - 1] == AssistantMessage(end.content) <==> added == [])
  {
    if added != [] {
      var rows := Persisted(Chat, text, end, added);
      assert rows[|rows| - 1] == added[|added| - 1];
    }
  }

  // ----- A turn whose answer is lost -----

  const NO_RUNS: nat -> ToolRun := (_: nat) => Failed("")

  /** One round with a tool call, and then an answer. */
  function CallsThenAnswers(r: nat): RoundInput {
    RoundInput(false, false,
               Some(if r == 0 then ToolCalls([LOOKUP], None) else Text("It is 4 o'clock.", None)),
               NO_RUNS)
  }

  const LOOKUP := ToolCall("call_1", "function", FunctionCall("clock", "{}"))

  /** The user is told the time, but the session ends with the result of the tool call. */
  lemma {:induction false} AnswerLost(stored: seq<SessionMessage>, step: Step)
    requires step.Turn? && step.channel.Chat? && step.script == CallsThenAnswers && step.arrivals == []
    ensures var (end, st) := TurnResult(stored, step);
            var rows := Appended(stored, step);
            && end == Answer("It is 4 o'clock.", None)
            && |rows| == 3 && rows[1] == AssistantToolCalls([LOOKUP], None) && rows[2].role.Tool?
  {
    var base := Base(stored, step.systemPrompt, step.text, step.imageUrls);
    var input := CallsThenAnswers(0);
    var first := AfterCalls(step.world, Sent(base, START), [LOOKUP], None, NO_RUNS);
    assert OneRound(step.world, base, START, input) == Continues(first);
    assert OneRound(step.world, base, first, CallsThenAnswers(1))
        == Ended(Answer("It is 4 o'clock.", None), Sent(base, first));
    assert RunFrom(step.world, base, first, step.script)
        == (Answer("It is 4 o'clock.", None), Sent(base, first));
    var replies := RoundReplies(step.world, [], [LOOKUP], NO_RUNS);
    assert |replies| == 1 && AnswersCall(replies[0], LOOKUP);
    assert first.added == [AssistantToolCalls([LOOKUP], None)] + replies;
    assert ArrivalMessages([]) == [];
  }

  /** A row that arrives between the rows of a turn being stored keeps the session paired
      iff it does not land in front of a tool result. */
  lemma {:induction false} ArrivalBetweenRows(a: seq<Message>, b: seq<Message>, arrival: Arrival)
    requires Paired(a + b)
    ensures Paired(a + ([ArrivalMessage(arrival)] + b)) <==> !(b != [] && b[0].role.Tool?)
  {
    PlainInsertion(a, b, ArrivalMessage(arrival));
  }
}
