/** What a session holds and what its requests say: the rows each channel stores of a turn
    (crates/openclaw-gateway/src/handler.rs:733-763), and the conversation a turn starts
    from. */
module SessionContents {
  import opened Common
  import opened Messages
  import opened History
  import opened AgentTurn
  import opened Session

  predicate IsRow(row: SessionMessage, role: string, text: string) {
    row.role == role && row.content == Some(text) && row.toolCalls == None && row.toolCallId == None
  }

  /** A stored message keeps everything but its images, under the name of its role. */
  lemma {:induction false} StoredAs(m: Message)
    ensures var row := Store(m);
            && (m.role.System? ==> row.role == "system") && (m.role.User? ==> row.role == "user")
            && (m.role.Assistant? ==> row.role == "assistant") && (m.role.Tool? ==> row.role == "tool")
            && row.content == m.content && row.reasoningContent == m.reasoningContent
            && row.toolCalls == m.toolCalls && row.toolCallId == m.toolCallId
  {
  }

  /** What a turn that did not fail at the provider says to the user. */
  predicate Says(end: TurnEnd, said: string) {
    match end
    case Answer(content, _) => said == content
    case Cancelled => said == "Cancelled by user."
    case RoundLimit => said == "(Agent reached maximum tool call rounds)"
    case ProviderFailed => false
  }

  /** After the user's row, the rows of a chat turn: what the turn added, or if that is
      nothing, what was said. */
  ghost predicate ChatRows(rows: seq<SessionMessage>, added: seq<Message>, said: string) {
    if added != [] then rows == StoreAll(added)
    else if said == "" then rows == []
    else |rows| == 1 && IsRow(rows[0], "assistant", said)
  }

  /** The rows of one turn, by channel. */
  ghost predicate TurnRows(channel: Channel, rows: seq<SessionMessage>, text: string, added: seq<Message>,
                           said: string)
  {
    if channel.Unstored? then rows == []
    else
      && rows != [] && IsRow(rows[0], "user", text)
      && match channel
         case Chat => ChatRows(rows[1..], added, said)
         case Voice => |rows| == 2 && IsRow(rows[1], "assistant", if said == "" then "I have nothing to say." else said)
         case CommandLine =>
           if said == "" then |rows| == 1 else |rows| == 2 && IsRow(rows[1], "assistant", said)
  }

  lemma {:induction false} PersistedRows(channel: Channel, text: string, end: TurnEnd, added: seq<Message>,
                                         said: string)
    requires Says(end, said)
    ensures TurnRows(channel, StoreAll(Persisted(channel, text, end, added)), text, added, said)
  {
    var rows := StoreAll(Persisted(channel, text, end, added));
    assert Response(end) == said;
    if channel.Chat? {
      ChatPersisted(text, end, added, said);
    }
  }

  lemma {:induction false} ChatPersisted(text: string, end: TurnEnd, added: seq<Message>, said: string)
    requires Says(end, said)
    ensures var rows := StoreAll(Persisted(Chat, text, end, added));
            rows != [] && IsRow(rows[0], "user", text) && ChatRows(rows[1..], added, said)
  {
    assert Response(end) == said;
    var rows := Persisted(Chat, text, end, added);
    if added != [] {
      assert rows == [UserMessage(text)] + added;
      assert StoreAll(rows)[1..] == StoreAll(added);
    } else {
      assert rows == [UserMessage(text)] + ResponseRow(said);
    }
  }

  /** The row of what arrives from elsewhere. */
  predicate IsArrival(row: SessionMessage, a: Arrival) {
    match a
    case SubagentResult(text) => IsRow(row, "assistant", text)
    case SentRow(AsUser, text) => IsRow(row, "user", text)
    case SentRow(AsAssistant, text) => IsRow(row, "assistant", text)
    case SentRow(AsSystem, text) => IsRow(row, "system", text)
  }

  lemma {:induction false} ArrivalIsRow(a: Arrival)
    ensures IsArrival(Store(ArrivalMessage(a)), a)
  {
  }

  /** What was stored, then the rows that arrived meanwhile, one by one, and then those of
      the turn: none if the provider failed. */
  ghost predicate TurnStored(rows: seq<SessionMessage>, stored: seq<SessionMessage>, step: Step, end: TurnEnd,
                             added: seq<Message>, said: string)
    requires step.Turn?
  {
    var n, m := |stored|, |step.arrivals|;
    && n + m <= |rows| && rows[..n] == stored
    && (forall i :: 0 <= i < m ==> IsArrival(rows[n + i], step.arrivals[i]))
    && (end.ProviderFailed? ==> |rows| == n + m)
    && (Says(end, said) ==> TurnRows(step.channel, rows[n + m..], step.text, added, said))
  }

  lemma {:induction false} RowsOfTurn(stored: seq<SessionMessage>, step: Step, end: TurnEnd, added: seq<Message>,
                                      said: string)
    requires step.Turn?
    ensures var own := Persisted(step.channel, step.text, end, added);
            TurnStored(stored + StoreAll(ArrivalMessages(step.arrivals) + own), stored, step, end, added, said)
  {
    var own := Persisted(step.channel, step.text, end, added);
    RowsBehind(stored, step.arrivals, own);
    if Says(end, said) {
      PersistedRows(step.channel, step.text, end, added, said);
    }
  }

  /** A turn leaves what was stored alone, and appends as TurnStored says. */
  lemma {:induction false} TurnAppends(stored: seq<SessionMessage>, step: Step, said: string)
    requires step.Turn?
    ensures var (end, st) := TurnResult(stored, step);
            TurnStored(AfterStep(stored, step), stored, step, end, st.added, said)
  {
    var (end, st) := TurnResult(stored, step);
    RowsOfTurn(stored, step, end, st.added, said);
    assert Appended(stored, step)
        == ArrivalMessages(step.arrivals) + Persisted(step.channel, step.text, end, st.added);
  }

  lemma {:induction false} RowsBehind(stored: seq<SessionMessage>, arrivals: seq<Arrival>, own: seq<Message>)
    ensures var rows, n, m := stored + StoreAll(ArrivalMessages(arrivals) + own), |stored|, |arrivals|;
            && n + m <= |rows| && rows[..n] == stored && rows[n + m..] == StoreAll(own)
            && forall i :: 0 <= i < m ==> IsArrival(rows[n + i], arrivals[i])
  {
    var arrived := StoreAll(ArrivalMessages(arrivals));
    StoreAllConcat(ArrivalMessages(arrivals), own);
    AppendedInParts(stored, arrived, StoreAll(own));
    forall i | 0 <= i < |arrivals| ensures IsArrival(arrived[i], arrivals[i]) {
      ArrivalIsRow(arrivals[i]);
    }
  }

  lemma {:induction false} AppendedInParts(a: seq<SessionMessage>, b: seq<SessionMessage>, c: seq<SessionMessage>)
    ensures var all := a + (b + c);
            && all[..|a|] == a && all[|a| + |b|..] == c
            && forall i :: 0 <= i < |b| ==> all[|a| + i] == b[i]
  {
  }

  // ----- What a request says -----

  /** Every request of a turn begins with the prompt, the reloaded history, and the user's
      message with its images. */
  lemma {:induction false} RequestBegins(steps: seq<Step>, k: nat, i: nat)
    requires k < |steps| && steps[k].Turn?
    requires i < |TurnResult(After(steps[..k]), steps[k]).1.requests|
    ensures var request := TurnResult(After(steps[..k]), steps[k]).1.requests[i];
            var history := LoadedHistory(After(steps[..k]));
            var n := |history|;
            && n + 2 <= |request|
            && request[0].role.System? && request[0].content == Some(steps[k].systemPrompt)
            && request[1..n + 1] == history
            && IsUserMessage(request[n + 1], steps[k].text, steps[k].imageUrls)
  {
    var stored, step := After(steps[..k]), steps[k];
    EveryRequestPaired(steps, k);
    BaseBegins(stored, step, TurnResult(stored, step).1.requests[i]);
  }

  predicate IsUserMessage(m: Message, text: string, imageUrls: seq<string>) {
    && m.role.User? && m.imageUrls == imageUrls && m.content.Some?
    && if imageUrls == [] then m.content.value == text
       else m.content.value == "[SYSTEM: " + Decimal(|imageUrls|) + " image(s) attached inline below.]\n\n" + text
  }

  lemma {:induction false} BaseBegins(stored: seq<SessionMessage>, step: Step, request: seq<Message>)
    requires step.Turn? && Base(stored, step.systemPrompt, step.text, step.imageUrls) <= request
    ensures var history := LoadedHistory(stored);
            var n := |history|;
            && n + 2 <= |request|
            && request[0].role.System? && request[0].content == Some(step.systemPrompt)
            && request[1..n + 1] == history
            && IsUserMessage(request[n + 1], step.text, step.imageUrls)
  {
    var message := TurnMessage(step.text, step.imageUrls);
    TurnMessageSays(step.text, step.imageUrls);
    BeginsInOrder(SystemMessage(step.systemPrompt), LoadedHistory(stored), message, request);
  }

  lemma {:induction false} BeginsInOrder(first: Message, middle: seq<Message>, last: Message, request: seq<Message>)
    requires [first] + middle + [last] <= request
    ensures |middle| + 2 <= |request| && request[0] == first
    ensures request[1..|middle| + 1] == middle && request[|middle| + 1] == last
  {
    var begins := [first] + middle + [last];
    assert forall i :: 0 <= i < |begins| ==> request[i] == begins[i];
    assert begins[0] == first && begins[|middle| + 1] == last;
    assert forall i :: 0 <= i < |middle| ==> begins[i + 1] == middle[i];
  }

  lemma {:induction false} TurnMessageSays(text: string, imageUrls: seq<string>)
    ensures IsUserMessage(TurnMessage(text, imageUrls), text, imageUrls)
  {
  }
}
