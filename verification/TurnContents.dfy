/** What a turn says and why it ends (crates/openclaw-agent/src/runtime.rs:550-779): how each
    request grows out of the one before, what counts as a claim without a tool call, and
    what the outside did last. */
module TurnContents {
  import opened Common
  import opened Messages
  import opened LoopDetection
  import opened LoopRuns
  import opened ToolRound
  import Tools
  import opened AgentTurn

  // ----- Claims without a tool call -----

  /** The same letter, or its capital. */
  predicate SameLetter(c: char, lower: char) {
    c == lower || ('A' <= c <= 'Z' && (c as int) + 32 == lower as int)
  }

  /** The pattern stands at place i of the text, in whatever case. */
  predicate StandsAt(text: string, pattern: string, i: nat) {
    i + |pattern| <= |text| && forall j :: 0 <= j < |pattern| ==> SameLetter(text[i + j], pattern[j])
  }

  predicate IsLowerCase(s: string) {
    forall j :: 0 <= j < |s| ==> !('A' <= s[j] <= 'Z')
  }

  lemma {:induction false} LowerIff(c: char, lower: char)
    requires !('A' <= lower <= 'Z')
    ensures Lower(c) == lower <==> SameLetter(c, lower)
  {
  }

  lemma {:induction false} ContainsIff(text: string, pattern: string)
    requires IsLowerCase(pattern)
    ensures Contains(ToLower(text), pattern) <==> exists i: nat :: StandsAt(text, pattern, i)
  {
    var lower := ToLower(text);
    if Contains(lower, pattern) {
      var i :| 0 <= i <= |lower| && pattern <= lower[i..];
      forall j | 0 <= j < |pattern| ensures SameLetter(text[i + j], pattern[j]) {
        assert pattern[j] == lower[i..][j] == lower[i + j] == Lower(text[i + j]);
        LowerIff(text[i + j], pattern[j]);
      }
      assert StandsAt(text, pattern, i);
    }
    if i: nat :| StandsAt(text, pattern, i) {
      forall j | 0 <= j < |pattern| ensures lower[i..][j] == pattern[j] {
        assert lower[i..][j] == lower[i + j] == Lower(text[i + j]);
        LowerIff(text[i + j], pattern[j]);
      }
      assert pattern <= lower[i..];
    }
  }

  lemma {:induction false} PatternsTo4AreLowerCase(i: nat)
    requires 0 <= i < 4
    ensures IsLowerCase(FABRICATION_PATTERNS[i])
  {
  }

  lemma {:induction false} PatternsTo8AreLowerCase(i: nat)
    requires 4 <= i < 8
    ensures IsLowerCase(FABRICATION_PATTERNS[i])
  {
  }

  lemma {:induction false} PatternsTo12AreLowerCase(i: nat)
    requires 8 <= i < 12
    ensures IsLowerCase(FABRICATION_PATTERNS[i])
  {
  }

  lemma {:induction false} PatternsAreLowerCase(i: nat)
    requires i < |FABRICATION_PATTERNS|
    ensures IsLowerCase(FABRICATION_PATTERNS[i])
  {
    if i < 4 {
      PatternsTo4AreLowerCase(i);
    } else if i < 8 {
      PatternsTo8AreLowerCase(i);
    } else {
      PatternsTo12AreLowerCase(i);
    }
  }

  /** A text is rejected as a claim exactly when one of the phrases stands in it somewhere,
      in whatever case. */
  lemma {:induction false} ClaimIff(text: string)
    ensures DetectFabrication(text)
       <==> exists i: nat, j: nat :: i < |FABRICATION_PATTERNS| && StandsAt(text, FABRICATION_PATTERNS[i], j)
  {
    if DetectFabrication(text) {
      var i :| 0 <= i < |FABRICATION_PATTERNS| && Contains(ToLower(text), FABRICATION_PATTERNS[i]);
      PatternsAreLowerCase(i);
      ContainsIff(text, FABRICATION_PATTERNS[i]);
    }
    if i: nat, j: nat :| i < |FABRICATION_PATTERNS| && StandsAt(text, FABRICATION_PATTERNS[i], j) {
      PatternsAreLowerCase(i);
      ContainsIff(text, FABRICATION_PATTERNS[i]);
    }
  }

  /** Such a text is rejected as the first reply of a turn: it joins the conversation, with
      a user message behind it, and the provider is asked again. */
  lemma {:induction false} ClaimRejected(world: World, base: seq<Message>, input: RoundInput)
    requires !input.cancelledBefore && !input.cancelledDuring
    requires input.reply.Some? && input.reply.value.Text? && DetectFabrication(input.reply.value.content)
    ensures var p := OneRound(world, base, START, input);
            && p.Continues? && |p.st.added| == 2
            && p.st.added[0].role.Assistant? && p.st.added[0].content == Some(input.reply.value.content)
            && p.st.added[1].role.User? && p.st.added[1].content == Some(REJECTION)
  {
  }

  // ----- How requests grow -----

  /** What a reply puts behind a conversation: the calls, under the provider's own ids and
      with its reasoning, and the replies of a round with these calls; or the rejected text
      and the rejection. */
  ghost predicate GrownBy(world: World, input: RoundInput, before: seq<Message>, after: seq<Message>) {
    && input.reply.Some?
    && match input.reply.value
       case ToolCalls(calls, reasoning) =>
         exists h: seq<Record> :: CallsAdded(world, h, calls, reasoning, input.runs, before, after)
       case Text(content, _) =>
         && DetectFabrication(content)
         && |after| == |before| + 2 && after[..|before|] == before
         && after[|before|].role.Assistant? && after[|before|].content == Some(content)
         && after[|before|].toolCalls == None
         && after[|before| + 1].role.User? && after[|before| + 1].content == Some(REJECTION)
  }

  ghost predicate CallsAdded(world: World, h: seq<Record>, calls: seq<ToolCall>, reasoning: Option<string>,
                             runs: nat -> Tools.ToolRun, before: seq<Message>, after: seq<Message>)
  {
    && |after| == |before| + 1 + |calls| && after[..|before|] == before
    && after[|before|].role.Assistant? && after[|before|].toolCalls == Some(calls)
    && after[|before|].reasoningContent == reasoning
    && after[|before| + 1..] == RoundReplies(world, h, calls, runs)
  }

  /** Each conversation is the one before, grown by the reply to it. */
  ghost predicate Chain(world: World, script: nat -> RoundInput, conversations: seq<seq<Message>>) {
    forall i :: 0 <= i < |conversations| - 1 ==>
      GrownBy(world, script(i), conversations[i], conversations[i + 1])
  }

  lemma {:induction false} ChainSnoc(world: World, script: nat -> RoundInput, cs: seq<seq<Message>>, c: seq<Message>)
    requires cs != [] && Chain(world, script, cs) && GrownBy(world, script(|cs| - 1), cs[|cs| - 1], c)
    ensures Chain(world, script, cs + [c])
  {
    var longer := cs + [c];
    forall i | 0 <= i < |longer| - 1 ensures GrownBy(world, script(i), longer[i], longer[i + 1]) {
      if i < |cs| - 1 {
        assert longer[i] == cs[i] && longer[i + 1] == cs[i + 1];
      } else {
        assert longer[i] == cs[|cs| - 1] && longer[i + 1] == c;
      }
    }
  }

  lemma {:induction false} ChainPrefix(world: World, script: nat -> RoundInput, cs: seq<seq<Message>>, n: nat)
    requires Chain(world, script, cs) && n <= |cs|
    ensures Chain(world, script, cs[..n])
  {
    forall i | 0 <= i < n - 1 ensures GrownBy(world, script(i), cs[..n][i], cs[..n][i + 1]) {
      assert GrownBy(world, script(i), cs[i], cs[i + 1]);
    }
  }

  /** The requests sent so far, and the conversation as it stands. */
  function Conversations(base: seq<Message>, st: TurnState): seq<seq<Message>> {
    st.requests + [base + st.added]
  }

  ghost predicate Grows(world: World, base: seq<Message>, st: TurnState, script: nat -> RoundInput) {
    && |st.requests| == st.rounds
    && Conversations(base, st)[0] == base
    && Chain(world, script, Conversations(base, st))
  }

  lemma {:induction false} RejectedGrows(world: World, base: seq<Message>, st: TurnState, input: RoundInput)
    requires input.reply.Some? && input.reply.value.Text? && DetectFabrication(input.reply.value.content)
    ensures GrownBy(world, input, base + st.added, base + Rejected(st, input.reply.value.content).added)
  {
    var content := input.reply.value.content;
    ConcatAssociative(base, st.added, [AssistantMessage(content), UserMessage(REJECTION)]);
  }

  lemma {:induction false} CallsGrow(world: World, base: seq<Message>, st: TurnState, input: RoundInput)
    requires input.reply.Some? && input.reply.value.ToolCalls?
    ensures var calls, reasoning := input.reply.value.calls, input.reply.value.reasoning;
            GrownBy(world, input, base + st.added, base + AfterCalls(world, st, calls, reasoning, input.runs).added)
  {
    var calls, reasoning := input.reply.value.calls, input.reply.value.reasoning;
    var replies := RoundReplies(world, st.window, calls, input.runs);
    var block := [AssistantToolCalls(calls, reasoning)] + replies;
    var before, after := base + st.added, base + (st.added + block);
    ConcatAssociative(base, st.added, block);
    assert after[|before| + 1..] == replies;
    assert CallsAdded(world, st.window, calls, reasoning, input.runs, before, after);
  }

  lemma {:induction false} RoundGrows(world: World, base: seq<Message>, st: TurnState, script: nat -> RoundInput)
    requires st.rounds <= MAX_TOOL_ROUNDS && Grows(world, base, st, script)
    requires OneRound(world, base, st, script(st.rounds)).Continues?
    ensures Grows(world, base, OneRound(world, base, st, script(st.rounds)).st, script)
  {
    var cs, next := Conversations(base, st), OneRound(world, base, st, script(st.rounds)).st;
    ReplyGrows(world, base, st, script(st.rounds));
    ChainSnoc(world, script, cs, base + next.added);
    assert Conversations(base, next) == cs + [base + next.added];
  }

  lemma {:induction false} ReplyGrows(world: World, base: seq<Message>, st: TurnState, input: RoundInput)
    requires st.rounds <= MAX_TOOL_ROUNDS && OneRound(world, base, st, input).Continues?
    ensures var next := OneRound(world, base, st, input).st;
            && next.requests == st.requests + [base + st.added] && next.rounds == st.rounds + 1
            && GrownBy(world, input, base + st.added, base + next.added)
  {
    match input.reply.value
    case Text(_, _) => RejectedGrows(world, base, Sent(base, st), input);
    case ToolCalls(_, _) => CallsGrow(world, base, Sent(base, st), input);
  }

  /** Why a turn ends, told by what the outside did last: the answer is the last reply. The
      rounds it reports are the requests sent, and one more if the limit ended it. */
  ghost predicate EndsBecause(end: TurnEnd, st: TurnState, script: nat -> RoundInput) {
    && st.rounds == |st.requests| + (if end.RoundLimit? then 1 else 0)
    && match end
       case Answer(content, reasoning) => st.rounds > 0 && script(st.rounds - 1).reply == Some(Text(content, reasoning))
       case ProviderFailed => st.rounds > 0 && script(st.rounds - 1).reply == None
       case Cancelled => script(st.rounds).cancelledBefore || (st.rounds > 0 && script(st.rounds - 1).cancelledDuring)
       case RoundLimit => |st.requests| == MAX_TOOL_ROUNDS
  }

  /** All requests of a turn: the first is the conversation it starts from, and each other
      one is the one before, grown by the provider's reply to it. */
  ghost predicate RequestsGrow(world: World, base: seq<Message>, st: TurnState, script: nat -> RoundInput) {
    (st.requests != [] ==> st.requests[0] == base) && Chain(world, script, st.requests)
  }

  lemma {:induction false} TurnSays(world: World, base: seq<Message>, st: TurnState, script: nat -> RoundInput)
    requires st.rounds <= MAX_TOOL_ROUNDS && Grows(world, base, st, script)
    ensures var (end, final) := RunFrom(world, base, st, script);
            RequestsGrow(world, base, final, script) && EndsBecause(end, final, script)
    decreases MAX_TOOL_ROUNDS - st.rounds
  {
    var p := OneRound(world, base, st, script(st.rounds));
    match p
    case Ended(end, final) => LastRoundSays(world, base, st, script);
    case Continues(next) =>
      RoundGrows(world, base, st, script);
      TurnSays(world, base, next, script);
  }

  lemma {:induction false} LastRoundSays(world: World, base: seq<Message>, st: TurnState, script: nat -> RoundInput)
    requires st.rounds <= MAX_TOOL_ROUNDS && Grows(world, base, st, script)
    requires OneRound(world, base, st, script(st.rounds)).Ended?
    ensures var p := OneRound(world, base, st, script(st.rounds));
            RequestsGrow(world, base, p.st, script) && EndsBecause(p.end, p.st, script)
  {
    var final := OneRound(world, base, st, script(st.rounds)).st;
    var cs := Conversations(base, st);
    ChainPrefix(world, script, cs, |final.requests|);
    assert final.requests == cs[..|final.requests|];
  }

  /** In every turn. */
  lemma {:induction false} EveryTurnSays(world: World, base: seq<Message>, script: nat -> RoundInput)
    ensures var (end, final) := RunFrom(world, base, START, script);
            RequestsGrow(world, base, final, script) && EndsBecause(end, final, script)
  {
    assert Conversations(base, START) == [base + []] && base + [] == base;
    TurnSays(world, base, START, script);
  }
}
