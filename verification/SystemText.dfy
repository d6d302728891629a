/** Which system text a request carries to Anthropic, where the last one wins
    (crates/openclaw-agent/src/llm/anthropic.rs:40-45). Rows of role "system" that the
    `sessions` tool sends to a session are reloaded into later turns, behind the prompt of
    the turn. */
module SystemText {
  import opened Common
  import opened Messages
  import opened History
  import opened AgentTurn
  import opened Session
  import opened Anthropic

  /** A list has no system text exactly when it has no system message with content. */
  lemma {:induction false} NoSystemTextIff(ms: seq<Message>)
    ensures SystemPrompt(ms) == None <==> forall m :: m in ms ==> !(m.role.System? && m.content.Some?)
    decreases |ms|
  {
    if ms != [] {
      var k := |ms| - 1;
      NoSystemTextIff(ms[..k]);
      assert ms == ms[..k] + [ms[k]];
      assert forall m :: m in ms <==> m in ms[..k] || m == ms[k];
    }
  }

  lemma {:induction false} NoSystemNoText(ms: seq<Message>)
    requires NoSystem(ms)
    ensures SystemPrompt(ms) == None
  {
    NoSystemTextIff(ms);
  }

  lemma {:induction false} LastSystemText(a: seq<Message>, b: seq<Message>)
    ensures SystemPrompt(a + b) == if SystemPrompt(b).Some? then SystemPrompt(b) else SystemPrompt(a)
  {
    ConvertConcat(_ => None, a, b);
  }

  lemma {:induction false} TextOfBase(stored: seq<SessionMessage>, prompt: string, text: string, imageUrls: seq<string>)
    ensures SystemPrompt(Base(stored, prompt, text, imageUrls))
         == Some(SystemPrompt(LoadedHistory(stored)).GetOr(prompt))
  {
    var first, last := [SystemMessage(prompt)], [TurnMessage(text, imageUrls)];
    LastSystemText(first + LoadedHistory(stored), last);
    LastSystemText(first, LoadedHistory(stored));
    NoSystemNoText(last);
    assert first[..0] == [];
  }

  lemma {:induction false} TextOfRequest(base: seq<Message>, added: seq<Message>, request: seq<Message>)
    requires base <= request <= base + added && NoSystem(added)
    ensures SystemPrompt(request) == SystemPrompt(base)
  {
    var rest := request[|base|..];
    assert request == base + rest;
    forall i | 0 <= i < |rest| ensures !rest[i].role.System? {
      assert rest[i] == (base + added)[|base| + i] == added[i];
    }
    NoSystemNoText(rest);
    LastSystemText(base, rest);
  }

  /** In every run of a session, the system text of every request: the last system row with
      content in the loaded history, or if there is none the prompt of the turn. */
  lemma {:induction false} EverySystemText(steps: seq<Step>, k: nat, i: nat)
    requires k < |steps| && steps[k].Turn?
    requires i < |TurnResult(After(steps[..k]), steps[k]).1.requests|
    ensures SystemPrompt(TurnResult(After(steps[..k]), steps[k]).1.requests[i])
         == Some(SystemPrompt(LoadedHistory(After(steps[..k]))).GetOr(steps[k].systemPrompt))
  {
    var stored, step := After(steps[..k]), steps[k];
    var base := Base(stored, step.systemPrompt, step.text, step.imageUrls);
    var st := TurnResult(stored, step).1;
    EveryRequestPaired(steps, k);
    TurnAddsNoSystem(step.world, base, START, step.script);
    TextOfBase(stored, step.systemPrompt, step.text, step.imageUrls);
    TextOfRequest(base, st.added, st.requests[i]);
  }

  /** So a turn's own prompt is sent iff the loaded history has no system row with content,
      or the last such row happens to have the same text. */
  lemma {:induction false} OwnPromptIff(steps: seq<Step>, k: nat, i: nat)
    requires k < |steps| && steps[k].Turn?
    requires i < |TurnResult(After(steps[..k]), steps[k]).1.requests|
    ensures SystemPrompt(TurnResult(After(steps[..k]), steps[k]).1.requests[i]) == Some(steps[k].systemPrompt)
       <==> (|| (forall m :: m in LoadedHistory(After(steps[..k])) ==> !(m.role.System? && m.content.Some?))
             || SystemPrompt(LoadedHistory(After(steps[..k]))) == Some(steps[k].systemPrompt))
  {
    EverySystemText(steps, k, i);
    NoSystemTextIff(LoadedHistory(After(steps[..k])));
  }

  // ----- Sessions without sent system rows -----

  predicate SendsSystem(step: Step) {
    match step
    case Turn(_, _, _, _, _, _, arrivals) => exists i :: 0 <= i < |arrivals| && IsSystemRow(arrivals[i])
    case Arrives(arrival) => IsSystemRow(arrival)
    case Clears => false
  }

  predicate IsSystemRow(a: Arrival) {
    a.SentRow? && a.role.AsSystem?
  }

  lemma {:induction false} AppendedNoSystem(stored: seq<SessionMessage>, step: Step)
    requires !SendsSystem(step)
    ensures NoSystem(Appended(stored, step))
  {
    if step.Turn? {
      var base := Base(stored, step.systemPrompt, step.text, step.imageUrls);
      var (end, st) := RunFrom(step.world, base, START, step.script);
      TurnAddsNoSystem(step.world, base, START, step.script);
      RowsNoSystem(step.channel, step.text, end, st.added, step.arrivals);
    }
  }

  lemma {:induction false} RowsNoSystem(channel: Channel, text: string, end: TurnEnd, added: seq<Message>,
                                        arrivals: seq<Arrival>)
    requires NoSystem(added) && forall i :: 0 <= i < |arrivals| ==> !IsSystemRow(arrivals[i])
    ensures NoSystem(ArrivalMessages(arrivals) + Persisted(channel, text, end, added))
  {
  }

  lemma {:induction false} StoredNoSystem(steps: seq<Step>)
    requires forall i :: 0 <= i < |steps| ==> !SendsSystem(steps[i])
    ensures NoSystem(Restore(After(steps)))
    decreases |steps|
  {
    if steps != [] {
      var k := |steps| - 1;
      StoredNoSystem(steps[..k]);
      StepNoSystem(After(steps[..k]), steps[k]);
    }
  }

  lemma {:induction false} StepNoSystem(stored: seq<SessionMessage>, step: Step)
    requires !SendsSystem(step) && NoSystem(Restore(stored))
    ensures NoSystem(Restore(AfterStep(stored, step)))
  {
    if !step.Clears? {
      AppendedNoSystem(stored, step);
      RestoreConcat(stored, StoreAll(Appended(stored, step)));
      RestoreStored(Appended(stored, step));
    }
  }

  lemma {:induction false} DropKeepsNoSystem(ms: seq<Message>)
    requires NoSystem(ms)
    ensures NoSystem(DropEmptyUsers(ms))
    decreases |ms|
  {
    if ms != [] {
      DropKeepsNoSystem(ms[1..]);
    }
  }

  lemma {:induction false} LoadedNoSystem(stored: seq<SessionMessage>)
    requires NoSystem(Restore(stored))
    ensures NoSystem(LoadedHistory(stored))
  {
    var k := PrunedIsSanitisedSuffix(Restore(stored));
    DropKeepsNoSystem(Restore(stored)[k..]);
  }

  /** Unless the `sessions` tool has sent a system row to the session, every request of
      every turn carries the turn's own prompt. */
  lemma {:induction false} OwnPromptUnlessSent(steps: seq<Step>, k: nat, i: nat)
    requires k < |steps| && steps[k].Turn?
    requires i < |TurnResult(After(steps[..k]), steps[k]).1.requests|
    requires forall j :: 0 <= j < k ==> !SendsSystem(steps[j])
    ensures SystemPrompt(TurnResult(After(steps[..k]), steps[k]).1.requests[i]) == Some(steps[k].systemPrompt)
  {
    StoredNoSystem(steps[..k]);
    LoadedNoSystem(After(steps[..k]));
    NoSystemNoText(LoadedHistory(After(steps[..k])));
    EverySystemText(steps, k, i);
  }

  // ----- A prompt that is replaced -----

  const RUDE: Message := SystemMessage("Be rude.")

  lemma {:induction false} RudeHistory()
    ensures LoadedHistory([Store(RUDE)]) == [RUDE]
  {
    assert [Store(RUDE)] == StoreAll([RUDE]);
    RestoreStored([RUDE]);
    assert WithoutImages([RUDE]) == [RUDE];
    assert EstimateMessageTokens(RUDE) <= 10;
    assert [RUDE][..0] == [] && KeptFrom([], 0) == 0;
    assert KeptFrom([RUDE], MAX_HISTORY_TOKENS) == 0;
    assert [RUDE][0..] == [RUDE] && [RUDE][1..] == [];
    assert DropEmptyUsers([RUDE]) == [RUDE] + DropEmptyUsers([]);
  }

  const SENT := Arrives(SentRow(AsSystem, "Be rude."))

  lemma {:induction false} RudeStored()
    ensures SystemPrompt(LoadedHistory(After([SENT]))) == Some("Be rude.")
  {
    assert [SENT][..0] == [];
    assert After([SENT]) == [] + StoreAll([RUDE]) == [Store(RUDE)];
    RudeHistory();
  }

  /** One system row, sent to the session before its first turn, replaces the turn's prompt
      in every request of the turn. */
  lemma {:induction false} PromptReplaced(step: Step, i: nat)
    requires step.Turn? && i < |TurnResult(After([SENT]), step).1.requests|
    ensures SystemPrompt(TurnResult(After([SENT]), step).1.requests[i]) == Some("Be rude.")
  {
    RudeStored();
    FirstTwo(SENT, step);
    EverySystemText([SENT, step], 1, i);
  }

  lemma {:induction false} FirstTwo(a: Step, b: Step)
    ensures [a, b][..1] == [a] && [a, b][1] == b
  {
  }
}
