/** Stored sessions and their reload: `load_session_history` of
    crates/openclaw-agent/src/runtime.rs caps the history, prunes it to a token budget
    and sanitises what is left. */
module History {
  import opened Common
  import opened Messages

  const MAX_HISTORY_MESSAGES: nat := 40
  const MAX_HISTORY_TOKENS: nat := 12000

  /** A message as the session table holds it; images are not stored. */
  datatype SessionMessage = SessionMessage(
    role: string,
    content: Option<string>,
    reasoningContent: Option<string>,
    toolCalls: Option<seq<ToolCall>>,
    toolCallId: Option<string>
  )

  function RoleName(role: Role): string {
    match role
    case System => "system"
    case User => "user"
    case Assistant => "assistant"
    case Tool => "tool"
  }

  function ParseRole(name: string): Option<Role> {
    if name == "system" then Some(System)
    else if name == "user" then Some(User)
    else if name == "assistant" then Some(Assistant)
    else if name == "tool" then Some(Tool)
    else None
  }

  function Store(m: Message): SessionMessage {
    SessionMessage(RoleName(m.role), m.content, m.reasoningContent, m.toolCalls, m.toolCallId)
  }

  function StoreAll(ms: seq<Message>): seq<SessionMessage> {
    seq(|ms|, i requires 0 <= i < |ms| => Store(ms[i]))
  }

  /** The stored rows as messages; rows of an unknown role are skipped. */
  function Restore(stored: seq<SessionMessage>): seq<Message> {
    if stored == [] then []
    else
      var sm := stored[|stored| - 1];
      var before := Restore(stored[..|stored| - 1]);
      match ParseRole(sm.role)
      case None => before
      case Some(role) => before + [Message(role, sm.content, sm.reasoningContent, sm.toolCallId, sm.toolCalls, [])]
  }

  function WithoutImages(ms: seq<Message>): seq<Message> {
    seq(|ms|, i requires 0 <= i < |ms| => ms[i].(imageUrls := []))
  }

  /** A row of one of the four roles becomes a message of that role; any other is skipped. */
  lemma {:induction false} RestoreRow(stored: seq<SessionMessage>, sm: SessionMessage)
    ensures sm.role !in {"system", "user", "assistant", "tool"} ==> Restore(stored + [sm]) == Restore(stored)
    ensures forall role :: RoleName(role) == sm.role ==>
              Restore(stored + [sm])
              == Restore(stored) + [Message(role, sm.content, sm.reasoningContent, sm.toolCallId, sm.toolCalls, [])]
  {
    assert (stored + [sm])[..|stored|] == stored;
    forall role | RoleName(role) == sm.role ensures ParseRole(sm.role) == Some(role) {
      ParseRoleName(role);
    }
  }

  lemma {:induction false} RestoreConcat(a: seq<SessionMessage>, b: seq<SessionMessage>)
    ensures Restore(a + b) == Restore(a) + Restore(b)
    decreases |b|
  {
    if b == [] {
      assert a + b == a;
    } else {
      assert (a + b)[..|a + b| - 1] == a + b[..|b| - 1];
      RestoreConcat(a, b[..|b| - 1]);
    }
  }

  lemma {:induction false} StoredSnoc(ms: seq<Message>)
    requires ms != []
    ensures var k := |ms| - 1;
            && StoreAll(ms)[..k] == StoreAll(ms[..k])
            && WithoutImages(ms) == WithoutImages(ms[..k]) + [ms[k].(imageUrls := [])]
  {
  }

  lemma {:induction false} ParseRoleName(role: Role)
    ensures ParseRole(RoleName(role)) == Some(role)
  {
  }

  /** Storing and restoring loses nothing but the images. */
  lemma {:induction false} RestoreStored(ms: seq<Message>)
    ensures Restore(StoreAll(ms)) == WithoutImages(ms)
    decreases |ms|
  {
    if ms != [] {
      var k := |ms| - 1;
      StoredSnoc(ms);
      ParseRoleName(ms[k].role);
      RestoreStored(ms[..k]);
    }
  }

  lemma {:induction false} AnswersWithoutImages(results: seq<Message>, calls: seq<ToolCall>)
    requires Answers(results, calls)
    ensures Answers(WithoutImages(results), calls)
  {
    forall k | 0 <= k < |calls| ensures AnswersCall(WithoutImages(results)[k], calls[k]) {
      assert AnswersCall(results[k], calls[k]);
    }
  }

  lemma {:induction false} WithoutImagesPaired(ms: seq<Message>)
    requires Paired(ms)
    ensures Paired(WithoutImages(ms))
    decreases |ms|
  {
    if ms != [] {
      var n := 1 + |CallsOf(ms[0])|;
      WithoutImagesPaired(ms[n..]);
      AnswersWithoutImages(ms[1..n], CallsOf(ms[0]));
      assert WithoutImages(ms)[1..n] == WithoutImages(ms[1..n]);
      assert WithoutImages(ms)[n..] == WithoutImages(ms[n..]);
    }
  }

  // ----- The token budget -----

  function EstimateTokens(text: string): nat {
    Max(|text| / 4, 1)
  }

  function EstimateMessageTokens(m: Message): nat {
    EstimateTokens(m.content.GetOr("")) + 4
  }

  function Tokens(ms: seq<Message>): nat {
    if ms == [] then 0 else EstimateMessageTokens(ms[0]) + Tokens(ms[1..])
  }

  /** Where the suffix starts that a backward walk keeps within a budget. */
  function KeptFrom(ms: seq<Message>, budget: nat): (start: nat)
    ensures start <= |ms|
  {
    if ms == [] || EstimateMessageTokens(ms[|ms| - 1]) > budget then |ms|
    else KeptFrom(ms[..|ms| - 1], budget - EstimateMessageTokens(ms[|ms| - 1]))
  }

  lemma {:induction false} TokensSnoc(ms: seq<Message>, m: Message)
    ensures Tokens(ms + [m]) == Tokens(ms) + EstimateMessageTokens(m)
    decreases |ms|
  {
    if ms == [] {
      assert ms + [m] == [m] && [m][1..] == [];
    } else {
      assert (ms + [m])[1..] == ms[1..] + [m];
      TokensSnoc(ms[1..], m);
    }
  }

  /** The kept suffix is the longest one that fits: one more message would not. */
  lemma {:induction false} KeptFromLongest(ms: seq<Message>, budget: nat)
    ensures var start := KeptFrom(ms, budget);
            && Tokens(ms[start..]) <= budget
            && (start > 0 ==> Tokens(ms[start - 1..]) > budget)
    decreases |ms|
  {
    if ms != [] {
      var k := |ms| - 1;
      var m := ms[k];
      if EstimateMessageTokens(m) > budget {
        assert ms[k..] == [] + [m];
        TokensSnoc([], m);
      } else {
        KeptFromLongest(ms[..k], budget - EstimateMessageTokens(m));
        var start := KeptFrom(ms, budget);
        assert ms[start..] == ms[..k][start..] + [m];
        TokensSnoc(ms[..k][start..], m);
        if start > 0 {
          assert ms[start - 1..] == ms[..k][start - 1..] + [m];
          TokensSnoc(ms[..k][start - 1..], m);
        }
      }
    }
  }

  // ----- Sanitising -----

  predicate IsEmptyUser(m: Message) {
    m.role.User? && m.content.GetOr("") == ""
  }

  function DropEmptyUsers(ms: seq<Message>): (r: seq<Message>)
    ensures |r| <= |ms|
  {
    if ms == [] then []
    else if IsEmptyUser(ms[0]) then DropEmptyUsers(ms[1..])
    else [ms[0]] + DropEmptyUsers(ms[1..])
  }

  function LeadingTools(ms: seq<Message>): (n: nat)
    ensures n <= |ms|
    ensures forall i :: 0 <= i < n ==> ms[i].role.Tool?
    ensures n < |ms| ==> !ms[n].role.Tool?
  {
    if ms != [] && ms[0].role.Tool? then 1 + LeadingTools(ms[1..]) else 0
  }

  /** The list starts with an assistant message that makes calls (its list may be empty)
      and is not followed by a tool result. */
  predicate StartsUnanswered(ms: seq<Message>) {
    ms != [] && ms[0].role.Assistant? && ms[0].toolCalls.Some? && !(|ms| > 1 && ms[1].role.Tool?)
  }

  function Sanitise(ms: seq<Message>): seq<Message> {
    var named := DropEmptyUsers(ms);
    var headed := named[LeadingTools(named)..];
    if StartsUnanswered(headed) then headed[1..] else headed
  }

  function Pruned(ms: seq<Message>): seq<Message> {
    var candidates := Last(ms, MAX_HISTORY_MESSAGES);
    Sanitise(candidates[KeptFrom(candidates, MAX_HISTORY_TOKENS)..])
  }

  function LoadedHistory(stored: seq<SessionMessage>): seq<Message> {
    Pruned(Restore(stored))
  }

  /** The backward walk of `load_session_history`: keep messages until the budget is
      exhausted. */
  method PruneToBudget(candidates: seq<Message>) returns (kept: seq<Message>)
    ensures kept == candidates[KeptFrom(candidates, MAX_HISTORY_TOKENS)..]
  {
    var tokenBudget: nat := MAX_HISTORY_TOKENS;
    kept := [];
    var i := |candidates|;
    assert candidates[..i] == candidates;
    while i > 0
      invariant 0 <= i <= |candidates|
      invariant kept == Reverse(candidates[i..])
      invariant KeptFrom(candidates, MAX_HISTORY_TOKENS) == KeptFrom(candidates[..i], tokenBudget)
    {
      var cost := EstimateMessageTokens(candidates[i - 1]);
      if cost > tokenBudget {
        break;
      }
      assert candidates[..i][..i - 1] == candidates[..i - 1];
      tokenBudget := tokenBudget - cost;
      ReverseCons(candidates[i - 1], candidates[i..]);
      assert candidates[i - 1..] == [candidates[i - 1]] + candidates[i..];
      kept := kept + [candidates[i - 1]];
      i := i - 1;
    }
    ReverseReverse(candidates[i..]);
    kept := Reverse(kept);
  }

  /** The loop of `load_session_history` that removes orphaned tool results. */
  method StripLeadingTools(named: seq<Message>) returns (kept: seq<Message>)
    ensures kept == named[LeadingTools(named)..]
  {
    kept := named;
    ghost var dropped: nat := 0;
    while kept != [] && kept[0].role.Tool?
      invariant dropped <= |named| && kept == named[dropped..]
      invariant LeadingTools(named) == dropped + LeadingTools(kept)
      decreases |kept|
    {
      kept := kept[1..];
      dropped := dropped + 1;
    }
  }

  /** `load_session_history` on the rows of a session. */
  method LoadSessionHistory(stored: seq<SessionMessage>) returns (kept: seq<Message>)
    ensures kept == LoadedHistory(stored)
  {
    var msgs := Restore(stored);
    var start := if |msgs| <= MAX_HISTORY_MESSAGES then 0 else |msgs| - MAX_HISTORY_MESSAGES;
    var candidates := msgs[start..];
    assert candidates == Last(msgs, MAX_HISTORY_MESSAGES);

    kept := PruneToBudget(candidates);
    kept := DropEmptyUsers(kept);
    kept := StripLeadingTools(kept);

    if kept != [] && kept[0].role.Assistant? && kept[0].toolCalls.Some? {
      var hasToolResponse := |kept| > 1 && kept[1].role.Tool?;
      if !hasToolResponse {
        kept := kept[1..];
      }
    }
  }

  // ----- What the reload guarantees -----

  lemma {:induction false} TokensTail(ms: seq<Message>, k: nat)
    requires k <= |ms|
    ensures Tokens(ms[k..]) <= Tokens(ms)
    decreases k
  {
    if k > 0 {
      assert ms[k..] == ms[1..][k - 1..];
      TokensTail(ms[1..], k - 1);
    }
  }

  lemma {:induction false} TokensDropEmptyUsers(ms: seq<Message>)
    ensures Tokens(DropEmptyUsers(ms)) <= Tokens(ms)
  {
    if ms != [] {
      TokensDropEmptyUsers(ms[1..]);
      if !IsEmptyUser(ms[0]) {
        assert DropEmptyUsers(ms)[1..] == DropEmptyUsers(ms[1..]);
      }
    }
  }

  /** Of the longest affordable suffix of the last 40 messages, the reload drops exactly
      the empty user messages, then the leading tool results, then at most one leading
      unanswered assistant message. The result is within both limits and never starts
      with a tool result. */
  lemma {:induction false} LoadedHistoryShape(stored: seq<SessionMessage>)
    ensures var candidates := Last(Restore(stored), MAX_HISTORY_MESSAGES);
            var start := KeptFrom(candidates, MAX_HISTORY_TOKENS);
            var named := DropEmptyUsers(candidates[start..]);
            var tools := LeadingTools(named);
            var h := LoadedHistory(stored);
            && Tokens(candidates[start..]) <= MAX_HISTORY_TOKENS
            && (start > 0 ==> Tokens(candidates[start - 1..]) > MAX_HISTORY_TOKENS)
            && (h == named[tools..] || (StartsUnanswered(named[tools..]) && h == named[tools + 1..]))
            && |h| <= MAX_HISTORY_MESSAGES
            && Tokens(h) <= MAX_HISTORY_TOKENS
            && (h != [] ==> !h[0].role.Tool?)
  {
    var candidates := Last(Restore(stored), MAX_HISTORY_MESSAGES);
    KeptFromLongest(candidates, MAX_HISTORY_TOKENS);
    var suffix := candidates[KeptFrom(candidates, MAX_HISTORY_TOKENS)..];
    var named := DropEmptyUsers(suffix);
    TokensDropEmptyUsers(suffix);
    var headed := named[LeadingTools(named)..];
    TokensTail(named, LeadingTools(named));
    if headed != [] {
      TokensTail(headed, 1);
    }
  }

  // ----- Pruning keeps tool calls paired -----

  lemma {:induction false} DropConcat(a: seq<Message>, b: seq<Message>)
    ensures DropEmptyUsers(a + b) == DropEmptyUsers(a) + DropEmptyUsers(b)
    decreases |a|
  {
    if a == [] {
      assert a + b == b;
    } else {
      assert (a + b)[1..] == a[1..] + b;
      DropConcat(a[1..], b);
    }
  }

  lemma {:induction false} DropNothing(ms: seq<Message>)
    requires forall i :: 0 <= i < |ms| ==> !IsEmptyUser(ms[i])
    ensures DropEmptyUsers(ms) == ms
  {
    if ms != [] {
      DropNothing(ms[1..]);
    }
  }

  lemma {:induction false} LeadingToolsConcat(a: seq<Message>, b: seq<Message>)
    requires forall i :: 0 <= i < |a| ==> a[i].role.Tool?
    ensures LeadingTools(a + b) == |a| + LeadingTools(b)
    decreases |a|
  {
    if a == [] {
      assert a + b == b;
    } else {
      assert (a + b)[1..] == a[1..] + b;
      LeadingToolsConcat(a[1..], b);
    }
  }

  lemma {:induction false} AnswersAreTools(ms: seq<Message>)
    requires Paired(ms) && ms != []
    ensures forall i :: 1 <= i <= |CallsOf(ms[0])| ==> ms[i].role.Tool?
  {
    forall i | 1 <= i <= |CallsOf(ms[0])| ensures ms[i].role.Tool? {
      FirstAnswers(ms, i);
    }
  }

  lemma {:induction false} DropKeepsPaired(ms: seq<Message>)
    requires Paired(ms)
    ensures Paired(DropEmptyUsers(ms))
    decreases |ms|
  {
    if ms != [] {
      var n := 1 + |CallsOf(ms[0])|;
      DropKeepsPaired(ms[n..]);
      if !IsEmptyUser(ms[0]) {
        AnswersAreTools(ms);
        DropNothing(ms[..n]);
        DropConcat(ms[..n], ms[n..]);
        assert ms == ms[..n] + ms[n..];
        assert ms[..n] == [ms[0]] + ms[1..n];
        PairedBlock(ms[0], ms[1..n]);
        PairedConcat(ms[..n], DropEmptyUsers(ms[n..]));
      }
    }
  }

  ghost predicate HeadedPaired(ms: seq<Message>) {
    var named := DropEmptyUsers(ms);
    Paired(named[LeadingTools(named)..])
  }

  lemma {:induction false} ToolsInFront(tools: seq<Message>, ms: seq<Message>)
    requires forall i :: 0 <= i < |tools| ==> tools[i].role.Tool?
    requires Paired(DropEmptyUsers(ms))
    ensures HeadedPaired(tools + ms)
  {
    DropNothing(tools);
    DropConcat(tools, ms);
    var named := DropEmptyUsers(ms);
    LeadingToolsConcat(tools, named);
    assert LeadingTools(named) == 0;
    assert (tools + named)[|tools|..] == named;
  }

  lemma {:induction false} CutInsideAnswers(ms: seq<Message>, k: nat, n: nat)
    requires k <= n <= |ms| && Paired(ms[n..])
    requires forall i :: k <= i < n ==> ms[i].role.Tool?
    ensures HeadedPaired(ms[k..])
  {
    assert ms[k..] == ms[k..n] + ms[n..];
    DropKeepsPaired(ms[n..]);
    ToolsInFront(ms[k..n], ms[n..]);
  }

  /** Cut a paired conversation anywhere: without empty user messages and leading tool
      results the rest is paired again. */
  lemma {:induction false} SuffixHeadedPaired(ms: seq<Message>, k: nat)
    requires Paired(ms) && k <= |ms|
    ensures HeadedPaired(ms[k..])
    decreases |ms|
  {
    if ms == [] || k == 0 {
      DropKeepsPaired(ms);
      assert ms[k..] == ms;
    } else {
      var n := 1 + |CallsOf(ms[0])|;
      if k < n {
        AnswersAreTools(ms);
        CutInsideAnswers(ms, k, n);
      } else {
        SuffixHeadedPaired(ms[n..], k - n);
        assert ms[k..] == ms[n..][k - n..];
      }
    }
  }

  lemma {:induction false} SanitisedSuffixPaired(ms: seq<Message>, k: nat)
    requires Paired(ms) && k <= |ms|
    ensures Paired(Sanitise(ms[k..]))
  {
    SuffixHeadedPaired(ms, k);
    var named := DropEmptyUsers(ms[k..]);
    var headed := named[LeadingTools(named)..];
    if StartsUnanswered(headed) && CallsOf(headed[0]) != [] {
      FirstAnswers(headed, 1);
    }
  }

  lemma {:induction false} PrunedIsSanitisedSuffix(ms: seq<Message>) returns (k: nat)
    ensures k <= |ms| && Pruned(ms) == Sanitise(ms[k..])
  {
    var candidates := Last(ms, MAX_HISTORY_MESSAGES);
    var start := KeptFrom(candidates, MAX_HISTORY_TOKENS);
    LastSuffix(ms, MAX_HISTORY_MESSAGES, start);
    k := |ms| - |candidates| + start;
  }

  /** Whatever cap, budget and sanitising cut away, the reloaded history is paired. */
  lemma {:induction false} LoadedHistoryPaired(stored: seq<SessionMessage>)
    requires Paired(Restore(stored))
    ensures Paired(LoadedHistory(stored))
  {
    var k := PrunedIsSanitisedSuffix(Restore(stored));
    SanitisedSuffixPaired(Restore(stored), k);
  }

  /** On a paired history the last sanitising step removes a message iff the kept part
      starts with an assistant message whose call list is empty: no message with real
      calls is ever removed by it. */
  lemma {:induction false} UnansweredOnlyWhenEmpty(ms: seq<Message>)
    requires Paired(ms)
    ensures StartsUnanswered(ms) <==> ms != [] && ms[0].role.Assistant? && ms[0].toolCalls == Some([])
  {
    if ms != [] && CallsOf(ms[0]) != [] {
      FirstAnswers(ms, 1);
    }
  }
}
