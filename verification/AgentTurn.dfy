/** The agent turn of crates/openclaw-agent/src/runtime.rs: send the conversation to the
    provider, run the tool calls it asks for, and repeat until it answers in text, the
    turn is cancelled, the provider fails, or 20 rounds are used up.

    `run_agent_turn` is the streaming turn without a cancel token, so one model serves
    both: in a non-streaming turn no round is cancelled. */
module AgentTurn {
  import opened Common
  import opened Messages
  import opened LoopDetection
  import opened LoopRuns
  import opened Tools
  import opened ToolRound

  /** What the outside does in one round: cancel before or during the provider call, let
      the provider fail (reply None) or complete, and decide what executions return. */
  datatype RoundInput = RoundInput(
    cancelledBefore: bool,
    cancelledDuring: bool,
    reply: Option<Completion>,
    runs: nat -> ToolRun
  )

  datatype TurnEnd = Answer(content: string, reasoning: Option<string>) | Cancelled | RoundLimit | ProviderFailed

  /** The variables of the turn: messages added since the turn began, the counters, the
      detector's window, and every message list sent to the provider so far. */
  datatype TurnState = TurnState(
    added: seq<Message>,
    rounds: nat,
    toolCallsMade: nat,
    window: seq<Record>,
    requests: seq<seq<Message>>
  )

  const START := TurnState([], 0, 0, [], [])

  // ----- Fabrication detection -----

  function Lower(c: char): char {
    if 'A' <= c <= 'Z' then (c as int + 32) as char else c
  }

  function ToLower(s: string): string {
    seq(|s|, i requires 0 <= i < |s| => Lower(s[i]))
  }

  predicate Contains(s: string, pattern: string) {
    exists i :: 0 <= i <= |s| && pattern <= s[i..]
  }

  const FABRICATION_PATTERNS: seq<string> := [
    "task dispatched", "task has been dispatched", "dispatched to background",
    "dispatched successfully", "subagent is running", "subagent has been", "delegated to",
    "i've dispatched", "i have dispatched", "running in background",
    "check status: /tasks", "check status with /tasks"
  ]

  /** Does a text claim to have started something, although no tool was called? */
  predicate DetectFabrication(content: string) {
    exists i :: 0 <= i < |FABRICATION_PATTERNS| && Contains(ToLower(content), FABRICATION_PATTERNS[i])
  }

  /** Stands for the source's rejection text, which is fixed. */
  const REJECTION := "[SYSTEM] Your previous response was REJECTED: call the tool this time."

  // ----- What a turn does -----

  /** The turn after asking the provider once more. */
  function Sent(base: seq<Message>, st: TurnState): TurnState {
    st.(rounds := st.rounds + 1, requests := st.requests + [base + st.added])
  }

  /** The turn after a rejected text. */
  function Rejected(st: TurnState, content: string): TurnState {
    st.(added := st.added + [AssistantMessage(content), UserMessage(REJECTION)])
  }

  /** The turn after a round of tool calls. */
  function AfterCalls(world: World, st: TurnState, calls: seq<ToolCall>, reasoning: Option<string>,
                      runs: nat -> ToolRun): TurnState
  {
    st.(added := st.added + ([AssistantToolCalls(calls, reasoning)] + RoundReplies(world, st.window, calls, runs)),
        toolCallsMade := st.toolCallsMade + |calls|,
        window := AfterRound(world.config, st.window, DetectorRound(world, st.window, Prepare(world, calls), runs)))
  }

  predicate Retries(st: TurnState, content: string) {
    st.toolCallsMade == 0 && st.rounds == 1 && DetectFabrication(content)
  }

  datatype Progress = Ended(end: TurnEnd, st: TurnState) | Continues(st: TurnState)

  /** One round over the conversation `base`. */
  function OneRound(world: World, base: seq<Message>, st: TurnState, input: RoundInput): (p: Progress)
    requires st.rounds <= MAX_TOOL_ROUNDS
    ensures p.Continues? ==> p.st.rounds == st.rounds + 1 <= MAX_TOOL_ROUNDS
  {
    if input.cancelledBefore then Ended(Cancelled, st)
    else if st.rounds == MAX_TOOL_ROUNDS then Ended(RoundLimit, st.(rounds := st.rounds + 1))
    else
      var sent := Sent(base, st);
      if input.cancelledDuring then Ended(Cancelled, sent)
      else match input.reply
        case None => Ended(ProviderFailed, sent)
        case Some(Text(content, reasoning)) =>
          if Retries(sent, content) then Continues(Rejected(sent, content))
          else Ended(Answer(content, reasoning), sent)
        case Some(ToolCalls(calls, reasoning)) =>
          Continues(AfterCalls(world, sent, calls, reasoning, input.runs))
  }

  /** How a turn ends and in which state, from a state with some rounds done; round r gets
      the input script(r). */
  function RunFrom(world: World, base: seq<Message>, st: TurnState, script: nat -> RoundInput): (TurnEnd, TurnState)
    requires st.rounds <= MAX_TOOL_ROUNDS
    decreases MAX_TOOL_ROUNDS - st.rounds
  {
    match OneRound(world, base, st, script(st.rounds))
    case Ended(end, final) => (end, final)
    case Continues(next) => RunFrom(world, base, next, script)
  }

  /** The body of the source's loop, over the conversation `messages`. */
  method PlayRound(world: World, ghost base: seq<Message>, messages: seq<Message>, st: TurnState,
                   detector: LoopDetector, input: RoundInput)
    returns (p: Progress, messages': seq<Message>)
    requires messages == base + st.added && st.rounds <= MAX_TOOL_ROUNDS
    requires detector.config == world.config && detector.history == st.window
    modifies detector
    ensures p == OneRound(world, base, st, input)
    ensures p.Continues? ==> messages' == base + p.st.added && detector.history == p.st.window
  {
    messages' := messages;
    if input.cancelledBefore {
      return Ended(Cancelled, st), messages';
    }
    var rounds := st.rounds + 1;
    if rounds > MAX_TOOL_ROUNDS {
      return Ended(RoundLimit, st.(rounds := rounds)), messages';
    }
    var sent := st.(rounds := rounds, requests := st.requests + [messages]);
    assert sent == Sent(base, st);
    if input.cancelledDuring {
      return Ended(Cancelled, sent), messages';
    }
    match input.reply
    case None =>
      p := Ended(ProviderFailed, sent);
    case Some(Text(content, reasoning)) =>
      if sent.toolCallsMade == 0 && rounds == 1 && DetectFabrication(content) {
        var retry := [AssistantMessage(content), UserMessage(REJECTION)];
        ConcatAssociative(base, st.added, retry);
        messages' := messages + retry;
        p := Continues(sent.(added := st.added + retry));
      } else {
        p := Ended(Answer(content, reasoning), sent);
      }
    case Some(ToolCalls(calls, reasoning)) =>
      var replies := RunRound(world, detector, calls, input.runs);
      var block := [AssistantToolCalls(calls, reasoning)] + replies;
      ConcatAssociative(base, st.added, block);
      messages' := messages + block;
      p := Continues(sent.(added := st.added + block,
                           toolCallsMade := st.toolCallsMade + |calls|,
                           window := detector.history));
  }

  /** The turn as the source runs it, from an empty detector. */
  method RunTurn(world: World, base: seq<Message>, script: nat -> RoundInput)
    returns (end: TurnEnd, st: TurnState)
    ensures (end, st) == RunFrom(world, base, START, script)
  {
    var detector := new LoopDetector(world.config);
    var messages := base;
    st := START;
    while true
      invariant st.rounds <= MAX_TOOL_ROUNDS && messages == base + st.added
      invariant fresh(detector) && detector.config == world.config && detector.history == st.window
      invariant RunFrom(world, base, START, script) == RunFrom(world, base, st, script)
      decreases MAX_TOOL_ROUNDS - st.rounds
    {
      var p;
      p, messages := PlayRound(world, base, messages, st, detector, script(st.rounds));
      st := p.st;
      if p.Ended? {
        return p.end, st;
      }
    }
  }

  // ----- What every turn keeps -----

  /** How many user messages a turn added: each one rejects a fabricated text. */
  function UserMessages(ms: seq<Message>): nat {
    if ms == [] then 0
    else UserMessages(ms[..|ms| - 1]) + if ms[|ms| - 1].role.User? then 1 else 0
  }

  lemma {:induction false} UserMessagesConcat(a: seq<Message>, b: seq<Message>)
    ensures UserMessages(a + b) == UserMessages(a) + UserMessages(b)
    decreases |b|
  {
    if b == [] {
      assert a + b == a;
    } else {
      assert (a + b)[..|a + b| - 1] == a + b[..|b| - 1];
      UserMessagesConcat(a, b[..|b| - 1]);
    }
  }

  lemma {:induction false} NoUserMessages(ms: seq<Message>)
    requires forall k :: 0 <= k < |ms| ==> !ms[k].role.User?
    ensures UserMessages(ms) == 0
    decreases |ms|
  {
    if ms != [] {
      NoUserMessages(ms[..|ms| - 1]);
    }
  }

  ghost predicate RequestsPaired(requests: seq<seq<Message>>) {
    forall i :: 0 <= i < |requests| ==> Paired(requests[i])
  }

  ghost predicate TurnInvariant(world: World, base: seq<Message>, st: TurnState) {
    && Paired(base + st.added)
    && RequestsPaired(st.requests)
    && st.toolCallsMade == ToolMessages(st.added)
    && |st.requests| <= MAX_TOOL_ROUNDS
    && UserMessages(st.added) <= 1
    && WindowInvariant(world.config, st.window)
    && AllClosed(st.window)
  }

  /** Before a round, additionally: one request per round done, and no rejection unless a
      round is done. */
  ghost predicate RoundInvariant(world: World, base: seq<Message>, st: TurnState) {
    && TurnInvariant(world, base, st)
    && |st.requests| == st.rounds
    && (st.rounds == 0 ==> UserMessages(st.added) == 0)
  }

  lemma {:induction false} SentKeeps(world: World, base: seq<Message>, st: TurnState)
    requires RoundInvariant(world, base, st) && st.rounds < MAX_TOOL_ROUNDS
    ensures TurnInvariant(world, base, Sent(base, st))
    ensures |Sent(base, st).requests| == st.rounds + 1
  {
  }

  lemma {:induction false} RejectedKeeps(world: World, base: seq<Message>, st: TurnState, content: string)
    requires TurnInvariant(world, base, st) && UserMessages(st.added) == 0
    ensures TurnInvariant(world, base, Rejected(st, content))
  {
    var pair := [AssistantMessage(content), UserMessage(REJECTION)];
    RejectionCounts(content);
    BlockAppended(base, st.added, pair);
    ToolMessagesConcat(st.added, pair);
    UserMessagesConcat(st.added, pair);
  }

  lemma {:induction false} RejectionCounts(content: string)
    ensures var pair := [AssistantMessage(content), UserMessage(REJECTION)];
            Paired(pair) && ToolMessages(pair) == 0 && UserMessages(pair) == 1
  {
    var pair := [AssistantMessage(content), UserMessage(REJECTION)];
    PairedPlain(AssistantMessage(content));
    PairedSnocPlain([AssistantMessage(content)], UserMessage(REJECTION));
    assert [AssistantMessage(content)] + [UserMessage(REJECTION)] == pair;
    assert pair[..1][..0] == [] && pair[..1] == [AssistantMessage(content)];
    assert ToolMessages(pair[..1]) == 0 && UserMessages(pair[..1]) == 0;
  }

  lemma {:induction false} BlockCounts(calls: seq<ToolCall>, reasoning: Option<string>, replies: seq<Message>)
    requires Answers(replies, calls)
    ensures var block := [AssistantToolCalls(calls, reasoning)] + replies;
            Paired(block) && ToolMessages(block) == |calls| && UserMessages(block) == 0
  {
    var m := AssistantToolCalls(calls, reasoning);
    PairedBlock(m, replies);
    assert forall k :: 0 <= k < |calls| ==> AnswersCall(replies[k], calls[k]);
    ToolMessagesConcat([m], replies);
    ToolMessagesAll(replies);
    assert [m][..0] == [];
    assert ToolMessages([m]) == 0;
    NoUserMessages([m] + replies);
  }

  lemma {:induction false} BlockAppended(base: seq<Message>, added: seq<Message>, block: seq<Message>)
    requires Paired(base + added) && Paired(block)
    ensures Paired(base + (added + block))
  {
    PairedConcat(base + added, block);
    ConcatAssociative(base, added, block);
  }

  lemma {:induction false} AfterCallsKeeps(world: World, base: seq<Message>, st: TurnState, calls: seq<ToolCall>,
                                           reasoning: Option<string>, runs: nat -> ToolRun)
    requires TurnInvariant(world, base, st)
    ensures TurnInvariant(world, base, AfterCalls(world, st, calls, reasoning, runs))
    ensures UserMessages(AfterCalls(world, st, calls, reasoning, runs).added) == UserMessages(st.added)
  {
    var replies := RoundReplies(world, st.window, calls, runs);
    var block := [AssistantToolCalls(calls, reasoning)] + replies;
    BlockCounts(calls, reasoning, replies);
    BlockAppended(base, st.added, block);
    ToolMessagesConcat(st.added, block);
    UserMessagesConcat(st.added, block);
    var round := DetectorRound(world, st.window, Prepare(world, calls), runs);
    RoundKeepsInvariant(world.config, st.window, round);
    RoundClosesAll(world.config, st.window, round);
  }

  lemma {:induction false} OneRoundKeeps(world: World, base: seq<Message>, st: TurnState, input: RoundInput)
    requires st.rounds <= MAX_TOOL_ROUNDS && RoundInvariant(world, base, st)
    ensures var p := OneRound(world, base, st, input);
            if p.Ended? then TurnInvariant(world, base, p.st) else RoundInvariant(world, base, p.st)
  {
    if !input.cancelledBefore && st.rounds < MAX_TOOL_ROUNDS {
      var sent := Sent(base, st);
      SentKeeps(world, base, st);
      match input.reply
      case None =>
      case Some(Text(content, reasoning)) =>
        if Retries(sent, content) {
          RejectedKeeps(world, base, sent, content);
        }
      case Some(ToolCalls(calls, reasoning)) =>
        AfterCallsKeeps(world, base, sent, calls, reasoning, input.runs);
    }
  }

  /** Whatever the provider, the tools and the user do: every request of the turn is
      paired, and so is the conversation it leaves; at most 20 requests are sent, at most
      one text is rejected, and the count of tool calls is the number of tool results. */
  lemma {:induction false} TurnKeepsInvariant(world: World, base: seq<Message>, st: TurnState,
                                              script: nat -> RoundInput)
    requires st.rounds <= MAX_TOOL_ROUNDS && RoundInvariant(world, base, st)
    ensures TurnInvariant(world, base, RunFrom(world, base, st, script).1)
    decreases MAX_TOOL_ROUNDS - st.rounds
  {
    OneRoundKeeps(world, base, st, script(st.rounds));
    match OneRound(world, base, st, script(st.rounds))
    case Ended(_, _) =>
    case Continues(next) => TurnKeepsInvariant(world, base, next, script);
  }

  lemma {:induction false} TurnFromStart(world: World, base: seq<Message>, script: nat -> RoundInput)
    requires Paired(base)
    ensures TurnInvariant(world, base, RunFrom(world, base, START, script).1)
  {
    assert base + [] == base;
    TurnKeepsInvariant(world, base, START, script);
  }

  /** Every request starts with the loaded conversation and is repeated, unchanged, at the
      front of the conversation the turn leaves. */
  ghost predicate AppendOnly(base: seq<Message>, st: TurnState) {
    forall i :: 0 <= i < |st.requests| ==> base <= st.requests[i] <= base + st.added
  }

  lemma {:induction false} AppendOnlyExtended(base: seq<Message>, st: TurnState, added: seq<Message>)
    requires AppendOnly(base, st) && st.added <= added
    ensures AppendOnly(base, st.(added := added))
  {
    assert base + st.added <= base + added;
  }

  lemma {:induction false} OneRoundAppendOnly(world: World, base: seq<Message>, st: TurnState, input: RoundInput)
    requires st.rounds <= MAX_TOOL_ROUNDS && AppendOnly(base, st)
    ensures AppendOnly(base, OneRound(world, base, st, input).st)
  {
    var p := OneRound(world, base, st, input);
    var sent := Sent(base, st);
    assert AppendOnly(base, sent);
    if p.Continues? {
      AppendOnlyExtended(base, sent, p.st.added);
    }
  }

  lemma {:induction false} TurnAppendOnly(world: World, base: seq<Message>, st: TurnState, script: nat -> RoundInput)
    requires st.rounds <= MAX_TOOL_ROUNDS && AppendOnly(base, st)
    ensures AppendOnly(base, RunFrom(world, base, st, script).1)
    decreases MAX_TOOL_ROUNDS - st.rounds
  {
    OneRoundAppendOnly(world, base, st, script(st.rounds));
    match OneRound(world, base, st, script(st.rounds))
    case Ended(_, _) =>
    case Continues(next) => TurnAppendOnly(world, base, next, script);
  }

  /** The last message of a turn, if there is one, is never a final text. */
  predicate EndsOpen(added: seq<Message>) {
    added != [] ==> var last := added[|added| - 1]; !last.role.Assistant? || last.toolCalls.Some?
  }

  lemma {:induction false} OneRoundEndsOpen(world: World, base: seq<Message>, st: TurnState, input: RoundInput)
    requires st.rounds <= MAX_TOOL_ROUNDS && EndsOpen(st.added)
    ensures EndsOpen(OneRound(world, base, st, input).st.added)
  {
    var sent := Sent(base, st);
    if input.reply.Some? && input.reply.value.ToolCalls? {
      var replies := RoundReplies(world, sent.window, input.reply.value.calls, input.runs);
      if replies != [] {
        assert AnswersCall(replies[|replies| - 1], input.reply.value.calls[|replies| - 1]);
      }
    }
  }

  lemma {:induction false} TurnEndsOpen(world: World, base: seq<Message>, st: TurnState, script: nat -> RoundInput)
    requires st.rounds <= MAX_TOOL_ROUNDS && EndsOpen(st.added)
    ensures EndsOpen(RunFrom(world, base, st, script).1.added)
    decreases MAX_TOOL_ROUNDS - st.rounds
  {
    OneRoundEndsOpen(world, base, st, script(st.rounds));
    match OneRound(world, base, st, script(st.rounds))
    case Ended(_, _) =>
    case Continues(next) => TurnEndsOpen(world, base, next, script);
  }

  // ----- Who speaks in a turn -----

  predicate NoSystem(ms: seq<Message>) {
    forall i :: 0 <= i < |ms| ==> !ms[i].role.System?
  }

  lemma {:induction false} TurnAddsNoSystem(world: World, base: seq<Message>, st: TurnState, script: nat -> RoundInput)
    requires st.rounds <= MAX_TOOL_ROUNDS && NoSystem(st.added)
    ensures NoSystem(RunFrom(world, base, st, script).1.added)
    decreases MAX_TOOL_ROUNDS - st.rounds
  {
    OneRoundAddsNoSystem(world, base, st, script(st.rounds));
    match OneRound(world, base, st, script(st.rounds))
    case Ended(_, _) =>
    case Continues(next) => TurnAddsNoSystem(world, base, next, script);
  }

  lemma {:induction false} OneRoundAddsNoSystem(world: World, base: seq<Message>, st: TurnState, input: RoundInput)
    requires st.rounds <= MAX_TOOL_ROUNDS && NoSystem(st.added)
    ensures NoSystem(OneRound(world, base, st, input).st.added)
  {
    if input.reply.Some? && input.reply.value.ToolCalls? {
      var calls := input.reply.value.calls;
      var replies := RoundReplies(world, Sent(base, st).window, calls, input.runs);
      forall k | 0 <= k < |replies| ensures !replies[k].role.System? {
        assert AnswersCall(replies[k], calls[k]);
      }
    }
  }

  // ----- Turns that add nothing -----

  /** The provider is asked and answers with a text that is not rejected. */
  predicate AnswersAtOnce(input: RoundInput) {
    && !input.cancelledBefore && !input.cancelledDuring
    && input.reply.Some? && input.reply.value.Text? && !DetectFabrication(input.reply.value.content)
  }

  lemma {:induction false} RoundsGrow(world: World, base: seq<Message>, st: TurnState, script: nat -> RoundInput)
    requires st.rounds <= MAX_TOOL_ROUNDS
    ensures var (end, final) := RunFrom(world, base, st, script);
            && st.added <= final.added
            && (end.Answer? ==> final.rounds > st.rounds)
    decreases MAX_TOOL_ROUNDS - st.rounds
  {
    match OneRound(world, base, st, script(st.rounds))
    case Ended(_, _) =>
    case Continues(next) =>
      assert st.added <= next.added;
      RoundsGrow(world, base, next, script);
  }

  /** A turn that ends with an answer adds no message exactly when it takes one round, that
      is, when the provider's first reply is a text that is not rejected. */
  lemma {:induction false} AddsNothingIff(world: World, base: seq<Message>, script: nat -> RoundInput)
    requires RunFrom(world, base, START, script).0.Answer?
    ensures var st := RunFrom(world, base, START, script).1;
            && (st.added == [] <==> st.rounds == 1)
            && (st.added == [] <==> AnswersAtOnce(script(0)))
  {
    match OneRound(world, base, START, script(0))
    case Ended(_, _) =>
    case Continues(next) => RoundsGrow(world, base, next, script);
  }

  /** The windows of a turn are windows of detector runs, so everything LoopRuns and
      LoopVerdicts prove about runs holds in turns. */
  ghost predicate WindowOfRun(cfg: Config, st: TurnState, rounds: seq<Round>) {
    |rounds| <= st.rounds && AfterRounds(cfg, rounds) == st.window
  }

  lemma {:induction false} TurnWindowsAreRuns(world: World, base: seq<Message>, st: TurnState,
                                              script: nat -> RoundInput,
                                              rounds: seq<Round>)
    returns (all: seq<Round>)
    requires st.rounds <= MAX_TOOL_ROUNDS && WindowOfRun(world.config, st, rounds)
    ensures WindowOfRun(world.config, RunFrom(world, base, st, script).1, all)
    decreases MAX_TOOL_ROUNDS - st.rounds
  {
    all := rounds;
    var input := script(st.rounds);
    var p := OneRound(world, base, st, input);
    if p.Continues? {
      if input.reply.value.ToolCalls? {
        var round := DetectorRound(world, st.window, Prepare(world, input.reply.value.calls), input.runs);
        assert (rounds + [round])[..|rounds|] == rounds;
        all := rounds + [round];
      }
      all := TurnWindowsAreRuns(world, base, p.st, script, all);
    }
  }
}
