# OpenClaw: a verified model

OpenClaw is a chat agent. Users write to it over Telegram, Discord, voice or the command
line; the agent asks a language model, runs the tools the model asks for, stores the
conversation, and answers. This project models its stateful core in Dafny and proves what
that core keeps over whole runs.

Everything the outside decides is an arbitrary input: what a provider answers, what a tool
returns, when someone cancels, how a network stream is cut into chunks, when a clock ticks,
which events a server sends. The theorems hold for all of them.

## How the modules fit together

The agent:

- `Common`, `Messages`: vocabulary; the conversation types, and *pairing*: every tool call
  is answered exactly once, directly after the message that made it, in call order.
- `LoopDetection`: the sliding-window loop detector, as the class it is. `LoopRuns` proves
  what every run of it keeps, `LoopOutcomes` which outcome reaches which record, and
  `LoopVerdicts` says exactly which of its checks can ever fire; `TurnVerdicts` carries that
  over to agent turns. `LoopWarnings` says what its counts count and what draws a warning.
- `Tools`, `ToolRound`: the tool registry, and one round of checking, parallel execution and
  merging. `ReplyContents` says what the replies of a round contain.
- `History`: reloading a stored session: cap, token budget, sanitising. `HistoryContents`
  says which messages are reloaded, place by place.
- `AgentTurn`: the loop of up to 20 rounds. `TurnContents` says how each request grows out of
  the one before and why a turn ends. `Session` chains turns through the store and
  proves the main theorem: **in every run of a session, every message list ever sent to a
  provider is paired** (`Session.EveryRequestPaired`), and so is its translation for
  Anthropic (`Session.EveryAnthropicRequestAnswered`). `SystemText` says which system text
  those requests carry, `SessionContents` what a session stores of a turn and how its
  requests begin.

Providers:

- `LineBuffer`, `Streaming`, `Anthropic`: incremental line reading, assembly of streamed
  completions, translation of conversations. `StreamTail` says what a stream loses that ends
  in the middle of a line.
- `Fallback`: the provider chain with its circuit breaker.

Around it:

- `Cron`, `RateLimit`, `Debounce`, `Watchdog`: components driven by a clock.
- `DiscordGateway`, `DiscordReconnect`: one Discord session, and the loop that resumes,
  identifies and backs off.
- `Dedup`, `AnsiStrip`, `CycleCompletion`: the event dispatcher of the UI server.
- `SplitMessage`: splitting long messages.

Code that updates state in loops is a method or a class, proved equal to a specification
function; the theorems are about those functions. A method that reads a stream or a channel
takes the finite sequence of what it has read so far.

## Where the code differs from its comments

The model follows the code. These differences are stated as theorems.

- A turn's messages do not include the final answer, although
  `crates/openclaw-agent/src/runtime.rs:259` and `crates/openclaw-gateway/src/handler.rs:739`
  say so: it is stored exactly when the provider's first reply is a text that is not
  rejected (`Session.AnswerStoredIff`); `Session.AnswerLost` is a turn whose answer is not.
- Under the default thresholds the global circuit breaker of the loop detector can never
  fire, and its critical no-progress check can fire under no configuration at all
  (`LoopVerdicts.CircuitBreakerOccursIff`, `NoProgressNeverBlocks`, and for turns
  `TurnVerdicts.DefaultTurns`).
- Equal calls in one batch receive their outcomes in reverse order
  (`LoopOutcomes.CloseFromEnd`), so a streak can be counted that is not there
  (`LoopVerdicts.WrongStreak`). A call is sure of its own outcome exactly when as many equal
  calls stand before it in the batch as after it (`LoopOutcomes.AlwaysOwnOutcomeIff`).
- An `every` cron job whose anchor lies in the future fires before it, as often as the
  55-second guard allows (`Cron.BeforeAnchorOnlyGuard`, `FiresBeforeItsAnchor`;
  `Cron.FiresWhenDueIff` says exactly when a decision is right).
- The Discord back-off is capped at 120 seconds but never sleeps more than 64: the time of
  the sleep counts as a healthy session (`DiscordReconnect.DelaysAreSmallPowers`,
  `BackOffStartsOver`). An invalidated session is never resumed even if the server calls it
  resumable (`ResumesUntilInvalidated`). The address for resuming is not kept with the
  session: a session that ends by storing its state leaves the address it was itself told
  in a READY, so a resumed one that was told none sends the next resume to the configured
  address (`NextAddress`, `AddressUsedTwiceOrForgotten`).
- The circuit of a provider never closes again once open (`Fallback.OpenForever`,
  `DeadChainStaysDead`).
- `strip_ansi` says it consumes parameter bytes 0x30-0x3F but knows digits, `;` and `?` only
  (`AnsiStrip.ControlSequenceVanishesIff`).
- A streamed line without its newline at the end of the stream is dropped
  (`StreamTail.UnterminatedLineLostIff`, `GreetingLost`).
- The state of a cycle is derived from its tasks at worker exits only. Closing its last open
  task in another way leaves it unsettled (`CycleCompletion.ClosingKeepsAgreementIff`), and an
  exit also settles a cycle that a user has cancelled (`CancelledCycleCompletes`).
- A row with the role "system" that the `sessions` tool sends to a session replaces the
  prompt of later turns in requests to Anthropic (`SystemText.EverySystemText`,
  `PromptReplaced`).

## Model

| member | source | states |
|---|---|---|
| Messages.PairedIffByIndex | crates/openclaw-agent/src/llm/mod.rs:49-139 | the block structure of a paired conversation is, both ways, the requirement position by position: the k-th call of message i is answered at i+1+k, and every tool message lies in such a place |
| Messages.PlainInsertion | crates/openclaw-agent/src/llm/mod.rs:84-139 | inserting a plain message keeps a conversation paired iff it is not put in front of a tool result |
| LoopDetection.LoopDetector.Check | crates/openclaw-agent/src/loop_detection.rs:91-196 | the verdict is the specified one for the current window: circuit breaker, repeats, no progress, ping-pong, then warnings, in that order |
| LoopDetection.LoopDetector.RecordCall | crates/openclaw-agent/src/loop_detection.rs:199-210 | the window gains an open record at its end and drops its oldest when over the limit; nothing else changes |
| LoopDetection.LoopDetector.RecordOutcome | crates/openclaw-agent/src/loop_detection.rs:214-228 | the most recent open record of that call receives the result, and no other record changes |
| LoopDetection.LoopDetector.NoProgressStreak | crates/openclaw-agent/src/loop_detection.rs:236-257 | the backward scan computes how often the latest result of the call has just been repeated |
| LoopDetection.LoopDetector.DetectPingPong | crates/openclaw-agent/src/loop_detection.rs:260-302 | the two backward scans compute the length of the alternating tail of the window, or 0 if the call is not part of it or the tail is too short |
| LoopRuns.StreakAtMostCount | crates/openclaw-agent/src/loop_detection.rs:95-142 | the no-progress streak of a call never exceeds the number of its records in the window |
| LoopRuns.AltTailEviction | crates/openclaw-agent/src/loop_detection.rs:207-209 | evicting the oldest record never lengthens the alternating tail |
| LoopRuns.AltTailPush | crates/openclaw-agent/src/loop_detection.rs:199-210 | a new record lengthens the alternating tail by at most one, and beyond 2 only if it repeats the other of the two calls |
| LoopRuns.RunsAreBounded | crates/openclaw-agent/src/runtime.rs:401-466 | in every run, also in the middle of a batch and across evictions, no call occurs more than `critical` times in the window and no alternating tail is longer than max(critical, 4) |
| LoopRuns.RoundClosesAll | crates/openclaw-agent/src/runtime.rs:434-466 | a round that starts with every record closed ends so, even if it repeats calls or overruns the window |
| LoopRuns.RoundBoundariesClosed | crates/openclaw-agent/src/runtime.rs:401-466 | at every round boundary of every run each record in the window has its result |
| LoopOutcomes.RoundRecords | crates/openclaw-agent/src/runtime.rs:434-466 | what any round leaves of any window: the newest part of the old records followed by one record per call that ran, each with the outcome of its mirror, the call with as many equal calls before it as this one has after it |
| LoopOutcomes.OwnOutcomeIff | crates/openclaw-agent/src/loop_detection.rs:214-228 | a call's record, while in the window, holds the call's own outcome iff the outcome at its mirror place is the same |
| LoopOutcomes.AlwaysOwnOutcomeIff | crates/openclaw-agent/src/loop_detection.rs:214-228 | it does so whatever the outcomes are iff as many equal calls stand before the call in the batch as after it |
| LoopOutcomes.CloseFromEnd | crates/openclaw-agent/src/loop_detection.rs:214-228 | of n equal calls of one batch the j-th record receives outcome n - 1 - j, for arbitrary outcomes |
| LoopVerdicts.WrongStreak | crates/openclaw-agent/src/loop_detection.rs:236-257 | three equal calls with results A, A, B are recorded as B, A, A and counted as a streak of 2, where call order gives 1 |
| LoopVerdicts.CircuitBreakerOccursIff | crates/openclaw-agent/src/loop_detection.rs:103-115 | for every configuration, some run of at most 20 rounds has a call blocked by the circuit breaker iff its threshold is within the critical threshold and the window |
| LoopVerdicts.GenericRepeatOccursIff | crates/openclaw-agent/src/loop_detection.rs:117-129 | the repeat check can block iff the critical threshold fits in the window and the circuit breaker is not 0 |
| LoopVerdicts.NoProgressNeverBlocks | crates/openclaw-agent/src/loop_detection.rs:131-142 | under no configuration and for no window does the critical no-progress check block |
| LoopVerdicts.PingPongOccursIff | crates/openclaw-agent/src/loop_detection.rs:144-156 | the exact configurations under which the ping-pong check can block |
| LoopVerdicts.DefaultDetectors | crates/openclaw-agent/src/loop_detection.rs:29-38 | with the default thresholds exactly the repeat and the ping-pong check can block |
| LoopWarnings.AllowedIff | crates/openclaw-agent/src/loop_detection.rs:91-196 | a call is allowed without a word iff its streak, its identical count and its ping-pong count are all below the warning and critical thresholds, and the streak below the circuit breaker |
| LoopWarnings.ReportsItsCount | crates/openclaw-agent/src/loop_detection.rs:103-193 | every warning and block reports the count of its own detector, and that count has reached the threshold of the verdict |
| LoopWarnings.EqualResultsWarned | crates/openclaw-agent/src/loop_detection.rs:158-169 | n equal results in a row, below the blocking thresholds, draw a no-progress warning with count n |
| LoopWarnings.RepeatsWarned | crates/openclaw-agent/src/loop_detection.rs:171-181 | n calls of one kind whose streak is below the warning threshold draw a repetition warning with count n |
| LoopWarnings.OpenRepeatsWarned | crates/openclaw-agent/src/loop_detection.rs:171-181 | n open calls of one kind draw a repetition warning with count n |
| LoopWarnings.DifferentResultsWarned | crates/openclaw-agent/src/loop_detection.rs:171-181 | so do n closed ones of which the last two results differ |
| LoopWarnings.AlternationWarned | crates/openclaw-agent/src/loop_detection.rs:183-193 | an alternation of n calls, each made less often than the warning threshold, draws a ping-pong warning with count n |
| LoopWarnings.DefaultWarnings | crates/openclaw-agent/src/loop_detection.rs:29-38 | by default seven equal results draw nothing and eight a warning |
| LoopWarnings.CountIsRecords | crates/openclaw-agent/src/loop_detection.rs:95-98 | the identical count is the number of places of the window that hold the call |
| LoopWarnings.ResultsAreRecords | crates/openclaw-agent/src/loop_detection.rs:236-257 | the results of a call are those of exactly its closed records, in order |
| LoopWarnings.RunIsLongest | crates/openclaw-agent/src/loop_detection.rs:236-257 | the run counted at the end of the results is all equal and cannot be extended |
| LoopWarnings.AlternationIsLongest | crates/openclaw-agent/src/loop_detection.rs:260-302 | the run counted at the end of the window alternates between the two calls and cannot be extended |
| LoopWarnings.OtherIsLatest | crates/openclaw-agent/src/loop_detection.rs:260-302 | the call the last one is compared with is the latest different one, if there is any |
| TurnVerdicts.OccursInTurnIff | crates/openclaw-agent/src/runtime.rs:376-466 | for every configuration, a detector blocks a call of some agent turn iff it does in some detector run: turns are runs, and every run can be played as a turn |
| TurnVerdicts.DefaultTurns | crates/openclaw-agent/src/loop_detection.rs:29-38 | with the default thresholds exactly the repeat and the ping-pong check ever block a call of a turn |
| Tools.WithoutToolDisables | crates/openclaw-agent/src/tools.rs:166-173 | in a registry without a tool every call of it fails as unknown, and every other call has the result it had |
| Tools.WithoutToolMembers | crates/openclaw-agent/src/tools.rs:166-173 | exactly the excluded tool is gone |
| ToolRound.ParallelResultOfCall | crates/openclaw-agent/src/tools.rs:212-235 | the k-th allowed call finds its own result in its slot of the parallel results; the fallback for a missing result is never reached |
| ToolRound.CheckBatch | crates/openclaw-agent/src/runtime.rs:400-421 | every call is decided on the window its predecessors left, allowed and warned calls are recorded, blocked ones counted |
| ToolRound.MergeResults | crates/openclaw-agent/src/runtime.rs:434-482 | blocked and executed results are merged into one reply per call in call order, and each outcome reaches the detector |
| ToolRound.RunRound | crates/openclaw-agent/src/runtime.rs:376-483 | a round yields exactly the specified replies (one per call, own id, call order) and takes the detector through one round of a run |
| ToolRound.RoundReplies | crates/openclaw-agent/src/runtime.rs:434-482 | the replies of a round answer its calls one for one, under their own ids, in order |
| ToolRound.TruncationKeepsEnds | crates/openclaw-agent/src/runtime.rs:94-107 | output within the limit is unchanged; a longer one keeps its first three quarters and last quarter of the limit, and the note between them counts the characters left out |
| ReplyContents.ExecutedReplySays | crates/openclaw-agent/src/runtime.rs:434-482 | for every window, batch and call that may run: its reply shows the text of its own outcome (the output; marked if an error; the unknown-tool error for an unregistered tool), whole up to 32000 characters and else both ends; a warned call shows the note behind that text |
| ReplyContents.PreparedSays | crates/openclaw-agent/src/runtime.rs:392-396 | a call is prepared under its own name, with its arguments as parsed, or with the empty object if they do not parse |
| ReplyContents.NoteTellsCount | crates/openclaw-agent/src/loop_detection.rs:103-191 | the note of every warning and block says its count |
| ReplyContents.BlockedReplySays | crates/openclaw-agent/src/runtime.rs:443-446 | a blocked call is answered with its note, marked as an error, whatever the runs return |
| ReplyContents.DetectorHearsText | crates/openclaw-agent/src/runtime.rs:457-467 | the outcome the detector records of a call is the whole text, without truncation or note |
| Common.DecimalRoundTrip | crates/openclaw-agent/src/runtime.rs:99-106 | counts printed in notes can be read back |
| History.RestoreStored | crates/openclaw-agent/src/runtime.rs:151-187 | storing and restoring messages loses nothing but images |
| History.RestoreRow | crates/openclaw-agent/src/runtime.rs:169-187 | a row of one of the four roles becomes a message of that role, and a row of any other role none |
| History.PruneToBudget | crates/openclaw-agent/src/runtime.rs:189-206 | the backward loop keeps the suffix that the budget function describes |
| History.KeptFromLongest | crates/openclaw-agent/src/runtime.rs:189-206 | that suffix fits the budget and one message more would not |
| History.LoadSessionHistory | crates/openclaw-agent/src/runtime.rs:151-247 | the loader computes cap, pruning and sanitising as specified |
| History.LoadedHistoryShape | crates/openclaw-agent/src/runtime.rs:189-237 | of the longest affordable suffix of the last 40 messages exactly the empty user messages, then leading tool results, then at most one unanswered leading assistant message are dropped; the result is within both limits and never starts with a tool result |
| HistoryContents.ReloadedPlaces | crates/openclaw-agent/src/runtime.rs:208-237 | the reloaded history holds, in order, the messages at exactly those places of the affordable end that are no empty user message, no tool message with only such messages in front, and no assistant message with calls in that position without a tool message next |
| HistoryContents.NoEmptyUserReloaded | crates/openclaw-agent/src/runtime.rs:208-217 | no reloaded message is a user message without text |
| HistoryContents.AffordableInCharacters | crates/openclaw-agent/src/runtime.rs:109-120 | the affordable end has at most 48000 characters, counting 13 more a message; with one message more it would have over 48000, counting 20 more a message |
| History.SanitisedSuffixPaired | crates/openclaw-agent/src/runtime.rs:208-237 | a paired conversation cut anywhere is paired again after sanitising |
| History.LoadedHistoryPaired | crates/openclaw-agent/src/runtime.rs:189-237 | whatever cap, budget and sanitising cut away, a paired session reloads paired |
| History.UnansweredOnlyWhenEmpty | crates/openclaw-agent/src/runtime.rs:228-237 | on paired histories the last sanitising step removes a message iff its call list is empty |
| AgentTurn.PlayRound | crates/openclaw-agent/src/runtime.rs:550-779 | one pass of the turn's loop, in its cancelled, failed, answered, rejected and tool-calling branches, is one step of the turn's state machine |
| AgentTurn.RunTurn | crates/openclaw-agent/src/runtime.rs:492-782 | the turn from an empty detector is a run of that state machine |
| AgentTurn.TurnKeepsInvariant | crates/openclaw-agent/src/runtime.rs:265-487 | from any state of the turn on: all requests and the conversation left are paired, at most 20 requests are sent, at most one text is rejected, and the count of tool calls is the number of tool results |
| AgentTurn.TurnAppendOnly | crates/openclaw-agent/src/runtime.rs:550-779 | every request begins with the loaded conversation and stays, unchanged, at the front of what the turn leaves |
| AgentTurn.TurnWindowsAreRuns | crates/openclaw-agent/src/runtime.rs:400-466 | the window a turn reaches is the window of a detector run of no more rounds than the turn counts, so the facts about runs hold in turns |
| AgentTurn.AddsNothingIff | crates/openclaw-agent/src/runtime.rs:366-375 | a turn that ends in an answer adds no message iff it takes one round, and iff the provider's first reply is a text that is not rejected |
| TurnContents.EveryTurnSays | crates/openclaw-agent/src/runtime.rs:550-779 | in every turn the first request is the conversation it starts from and each other one is the one before plus what the reply adds (the calls with reasoning and the replies of a round with them, or the rejected text and the rejection); an answer is the last reply, a failure its absence, a cancellation was asked for, and the limit means 20 requests; the rounds reported are the requests sent, and one more at the limit |
| TurnContents.ClaimIff | crates/openclaw-agent/src/runtime.rs:22-39 | a text counts as a claim iff one of the phrases stands in it somewhere, in whatever case |
| TurnContents.ClaimRejected | crates/openclaw-agent/src/runtime.rs:627-638 | a first reply that is a claim joins the conversation with a user message behind it, and the provider is asked again |
| Session.PersistTurn | crates/openclaw-gateway/src/handler.rs:726-767 | after a turn a chat stores the user's text, then the turn's messages, then the response only if there were none; a voice or command-line turn stores text and response only (voice says something for an empty one); a failed turn and one of the HTTP and MCP interfaces store nothing |
| Session.HandleTurn | crates/openclaw-gateway/src/handler.rs:726-767 | reload, turn and persistence append exactly what the session model says, after the rows that arrived meanwhile |
| Session.SessionsStayPaired | crates/openclaw-gateway/src/handler.rs:735-763 | after every run of turns of all channels, subagent results, rows sent by the `sessions` tool, also ones that arrive while a turn runs, and deletions, the stored session is paired |
| Session.EveryRequestPaired | crates/openclaw-agent/src/runtime.rs:189-237 | in every run of a session every message list ever sent to the provider, by a turn of any channel, is paired, through pruning, blocked calls, the rejected text, the round limit and cancellation |
| Session.EveryAnthropicRequestAnswered | crates/openclaw-agent/src/llm/anthropic.rs:34-123 | each of those requests, translated for Anthropic, has every tool use answered by exactly the following tool results in order |
| Session.AnswerStoredIff | crates/openclaw-gateway/src/handler.rs:738-763 | in a chat a non-empty final answer is the last row stored iff the turn added no message of its own, and iff the provider's first reply is a text that is not rejected |
| Session.AnswerLost | crates/openclaw-gateway/src/handler.rs:738-763 | a chat turn with one tool call and then an answer: three rows are stored, the last being the tool result |
| Session.ArrivalBetweenRows | crates/openclaw-gateway/src/handler.rs:453-470 | a subagent result or a sent row stored between the rows of a turn keeps the session paired iff it does not land in front of a tool result |
| SessionContents.TurnAppends | crates/openclaw-gateway/src/handler.rs:733-763 | a turn leaves what was stored, appends what arrived meanwhile row by row, and then: nothing if the provider failed or the turn is not stored; else a user row with the text, and in a chat the turn's messages or if there are none one assistant row with what was said, for voice and command line just that row (voice says something for nothing) |
| SessionContents.StoredAs | crates/openclaw-gateway/src/handler.rs:739-756 | a message is stored under the name of its role with all its parts but images |
| SessionContents.RequestBegins | crates/openclaw-agent/src/runtime.rs:275-300 | every request of every turn of every run begins with the prompt as a system message, the reloaded history, and the user's message with its images |
| SystemText.EverySystemText | crates/openclaw-agent/src/llm/anthropic.rs:40-45 | in every run the system text of every request to Anthropic is the last system row with content in the loaded history, or else the turn's prompt |
| SystemText.OwnPromptIff | crates/openclaw-agent/src/llm/anthropic.rs:40-45 | a turn's own prompt is sent iff the loaded history has no system row with content, or the last one has the same text |
| SystemText.OwnPromptUnlessSent | crates/openclaw-agent/src/tools/sessions.rs:175-205 | unless a system row has been sent to the session, every request carries the turn's own prompt |
| SystemText.PromptReplaced | crates/openclaw-agent/src/tools/sessions.rs:190-203 | one system row sent before the first turn replaces the prompt in every request of that turn |
| LineBuffer.ReadInTwoSteps | crates/openclaw-agent/src/llm/streaming.rs:72-80 | taking complete lines early and keeping the rest gives the lines and the rest of the whole text |
| LineBuffer.LinesAreTheText | crates/openclaw-agent/src/llm/streaming.rs:72-80 | the lines and the rest joined with newlines are the text, and none of them contains a newline |
| LineBuffer.TrimTakesSpace | crates/openclaw-agent/src/llm/streaming.rs:79 | trimming takes the white space at both ends of a line and nothing else |
| Streaming.DrainLines | crates/openclaw-agent/src/llm/streaming.rs:78-142 | draining the buffer applies every complete line in order and leaves the rest |
| Streaming.StreamCompletion | crates/openclaw-agent/src/llm/streaming.rs:66-203 | the result depends only on the concatenated text, not on how it was cut, or is a read error iff a read failed. Without tool deltas the completion is the content text of the deltas; with any, one function call per index with the last id and name and all arguments given; reasoning if there is any; the usage is the last one reported, or an estimate if that has no total; the events carry the same texts |
| Streaming.StreamIsItsDeltas | crates/openclaw-agent/src/llm/streaming.rs:84-130 | content and reasoning are the texts of the deltas in order and equal the emitted events put together; there is one call per index up to the largest, with the last id and name given for it |
| Streaming.ToolCallArguments | crates/openclaw-agent/src/llm/streaming.rs:104-128 | the arguments of call i are the in-order concatenation of the pieces for index i |
| Streaming.FinishSays | crates/openclaw-agent/src/llm/streaming.rs:144-203 | for all lines: completion, usage and events of the assembled stream, told by the deltas and the usage on the lines |
| Streaming.ContentLengthAdds | crates/openclaw-agent/src/llm/streaming.rs:145-149 | what was sent is measured message by message |
| Streaming.DataLineCarries | crates/openclaw-agent/src/llm/streaming.rs:79-87 | a data line carries what the parser makes of its text, whatever white space is around it |
| Streaming.OtherLinesCarryNothing | crates/openclaw-agent/src/llm/streaming.rs:82-86 | the end mark, and every line that does not begin with the data prefix, carries nothing |
| StreamTail.UnterminatedLineLostIff | crates/openclaw-agent/src/llm/streaming.rs:78-82 | after a text that ends in a newline, a last line without one changes nothing; with its newline the result would differ iff the line carries a chunk with content, reasoning, a new call, a name, arguments, another final id, or other usage |
| StreamTail.GreetingLost | crates/openclaw-agent/src/llm/streaming.rs:78-82 | a stream whose only line, a chunk with the content "hi", lacks its newline says nothing; with it, it says "hi" |
| Anthropic.ConvertMessages | crates/openclaw-agent/src/llm/anthropic.rs:34-123 | the loop computes the last system text and the translated messages |
| Anthropic.ConvertConcat | crates/openclaw-agent/src/llm/anthropic.rs:34-123 | the message part maps concatenation to concatenation, and the later system text wins |
| Anthropic.ConvertKeepsPairing | crates/openclaw-agent/src/llm/anthropic.rs:72-119 | a paired conversation becomes one where each tool use is answered by exactly the following tool results in the same order |
| Anthropic.TextsSurvive | crates/openclaw-agent/src/llm/anthropic.rs:45-71 | plain texts keep their text and side; system messages become no message |
| Anthropic.CallsSurvive | crates/openclaw-agent/src/llm/anthropic.rs:77-98 | calls keep id, name and parsed arguments, in order, behind the text of the message if there is one |
| Anthropic.ResultsSurvive | crates/openclaw-agent/src/llm/anthropic.rs:106-119 | a tool result keeps its call and its text |
| Anthropic.ImagesSurvive | crates/openclaw-agent/src/llm/anthropic.rs:45-66 | images come first, one block for every data URL in order, then the text |
| Anthropic.DataUrlRead | crates/openclaw-agent/src/llm/anthropic.rs:193-198 | a data URL is read as its type and its data |
| Anthropic.EventsAssemble | crates/openclaw-agent/src/llm/anthropic.rs:455-499 | from any state, the machine adds one call per tool start with the input pieces of its own block, in order, and drops stray pieces |
| Anthropic.EventsEmit | crates/openclaw-agent/src/llm/anthropic.rs:455-520 | from any state, the emitted events are those of the tool starts and text pieces in order, and the token counts are the last ones reported |
| Anthropic.EmittedTextIsContent | crates/openclaw-agent/src/llm/anthropic.rs:473-483 | the emitted text pieces put together are the content |
| Anthropic.CompletionOfEvents | crates/openclaw-agent/src/llm/anthropic.rs:544-563 | the completion is calls iff a tool was started, and otherwise the text |
| Anthropic.UsageOfEvents | crates/openclaw-agent/src/llm/anthropic.rs:528-539 | the usage is the last counts reported, or an estimate if they add up to 0 |
| Anthropic.LinesCarry | crates/openclaw-agent/src/llm/anthropic.rs:447-453 | a line adds to the events before it what the parser makes of its data, and nothing if it has none |
| Anthropic.ReadStream | crates/openclaw-agent/src/llm/anthropic.rs:433-563 | completion, usage (reported or estimated) and emitted events of a stream are those its events describe, however the text was cut into chunks |
| Fallback.FallbackProvider.Complete | crates/openclaw-agent/src/llm/fallback.rs:184-224 | entries are asked in order while their circuit is closed and none has answered; exactly the asked ones have their counters changed; success comes from the first that serves, an error from the last one asked, and the label is that of the last success |
| Fallback.CounterIsTrailingFailures | crates/openclaw-agent/src/llm/fallback.rs:191-220 | over every run of requests a counter is the length of the entry's trailing run of failed calls, and at most 4 |
| Fallback.OpenForever | crates/openclaw-agent/src/llm/fallback.rs:194-201 | an entry with four failures keeps them and is never asked again, whatever follows |
| Fallback.DeadChainStaysDead | crates/openclaw-agent/src/llm/fallback.rs:223 | once every entry is open no later request reaches a provider |
| Fallback.SuccessIsFirst | crates/openclaw-agent/src/llm/fallback.rs:191-223 | a request succeeds iff some entry would serve it; before the one that did, every entry was open or failed |
| Fallback.AnswerIsDetermined | crates/openclaw-agent/src/llm/fallback.rs:191-223 | counters and outcomes determine the answer |
| Cron.CronState.Tick | crates/openclaw-gateway/src/cron.rs:41-74 | a tick fires the due jobs in order and records their time, as specified |
| Cron.JobsAreIndependent | crates/openclaw-gateway/src/cron.rs:41-74 | a tick treats a job with its own id as if it were alone |
| Cron.OnlyEligibleFire | crates/openclaw-gateway/src/cron.rs:41-74 | only enabled agent-turn jobs fire, and their firing is recorded |
| Cron.CronExprFiresIff | crates/openclaw-gateway/src/cron.rs:130-148 | a cron-expression job fires iff its expression matches and 55 s have passed |
| Cron.JobRunsAlone | crates/openclaw-gateway/src/cron.rs:24-74 | over any run of ticks, with the job list read anew in each, an enabled `every` job that keeps its own id fires in just the ticks the single-job run says, whatever the other jobs do |
| Cron.FiresWhenDue | crates/openclaw-gateway/src/cron.rs:130-178 | from the anchor on, the job fires iff it is within 45 s of its period's start, has not fired in that period, and 55 s have passed |
| Cron.BeforeAnchorOnlyGuard | crates/openclaw-gateway/src/cron.rs:150-178 | before the anchor the job fires exactly when the guard passes |
| Cron.FiresWhenDueIff | crates/openclaw-gateway/src/cron.rs:130-178 | a decision agrees with being due iff the anchor has come, or the guard forbids firing, or the time is within the first 45 s of its period |
| Cron.FiresBeforeItsAnchor | crates/openclaw-gateway/src/cron.rs:150-178 | a concrete job that fires before its anchor, and twice within an hour although its interval is one |
| Cron.FiringsKeepGuard | crates/openclaw-gateway/src/cron.rs:131-138 | for every clock that does not go back, before the anchor as after it, two firings of a job are at least 55 s apart |
| Cron.FiringsAreApart | crates/openclaw-gateway/src/cron.rs:130-178 | from the anchor on, two firings of a job are in different periods, and at least 55 s apart |
| Cron.FiresExactlyOnce | crates/openclaw-gateway/src/cron.rs:29-74 | with intervals of at least 100 s and ticks at most 45 s apart, the job fires exactly once in every period whose start is observed, at its first tick |
| Cron.PromptIff | crates/openclaw-gateway/src/cron.rs:130-178 | 100 s is exactly the interval from which on that holds: for every shorter one a run misses the first tick |
| Cron.OnceIff | crates/openclaw-gateway/src/cron.rs:130-178 | 99.999 s is exactly the interval from which on every observed period with a second tick has exactly one firing; for every shorter one a run has a period with none |
| RateLimit.RateLimiter.Check | crates/openclaw-gateway/src/ratelimit.rs:26-47 | the answer and the user's new times are the specified decision; other users' times are untouched |
| RateLimit.UsersAreIndependent | crates/openclaw-gateway/src/ratelimit.rs:26-32 | in a trace of many users, a user's times are what their own requests alone lead to |
| RateLimit.TraceRejectedIff | crates/openclaw-gateway/src/ratelimit.rs:34-46 | after every trace a request is rejected iff the last `limit` accepts lie within the window, and the wait passes the moment the oldest leaves it by at most a second |
| RateLimit.RetryAfterWait | crates/openclaw-gateway/src/ratelimit.rs:37-42 | returning after the wait with nothing in between is accepted; returning a second or more before it is not |
| RateLimit.AcceptsAreSpaced | crates/openclaw-gateway/src/ratelimit.rs:34-46 | the accept `limit` places later is at least a window later |
| RateLimit.WindowHoldsAtMostLimit | crates/openclaw-gateway/src/ratelimit.rs:26-47 | no half-open window of that length holds more than `limit` accepts |
| Dedup.DispatchEvents | crates/openclaw-ui/src/dispatch.rs:43-70 | an event is handled iff its id is not among the last 256 handled; the order list is those ids without duplicates, and the set holds exactly them |
| Dedup.RepeatsAreFarApart | crates/openclaw-ui/src/dispatch.rs:50-59 | two handlings of one event have at least 256 others between them |
| Dedup.HandledIffReceived | crates/openclaw-ui/src/dispatch.rs:46-61 | exactly the received events are handled, at least once each |
| AnsiStrip.StripAnsi | crates/openclaw-ui/src/dispatch.rs:484-523 | the nested loops compute what a one-character-at-a-time automaton does |
| AnsiStrip.NoEscapeInOutput | crates/openclaw-ui/src/dispatch.rs:482-484 | the output never contains an escape character |
| AnsiStrip.PlainTextKept | crates/openclaw-ui/src/dispatch.rs:517-519 | text without an escape character is unchanged |
| AnsiStrip.Idempotent | crates/openclaw-ui/src/dispatch.rs:482-523 | stripping twice is stripping once |
| AnsiStrip.ControlSequenceStripped | crates/openclaw-ui/src/dispatch.rs:488-505 | what is left of any control sequence (section 5.4 of ECMA-48) anywhere in text: nothing, or everything from the first parameter byte the loop does not know; the text around it survives |
| AnsiStrip.ControlSequenceVanishesIff | crates/openclaw-ui/src/dispatch.rs:492-499 | a control sequence disappears iff its parameters contain none of `:`, `<`, `=`, `>` |
| AnsiStrip.CommandStripped | crates/openclaw-ui/src/dispatch.rs:507-516 | an operating system command ended by BEL or by ESC and a backslash disappears, and nothing else |
| AnsiStrip.OpenCommandSwallowsRest | crates/openclaw-ui/src/dispatch.rs:507-516 | a command that is never ended takes the rest of the text with it |
| CycleCompletion.Database.HandleWorkerExit | crates/openclaw-ui/src/dispatch.rs:234-377 | the exit settles its run and its task, frees a slot, and changes at most the cycle of that task |
| CycleCompletion.ExitSettles | crates/openclaw-ui/src/dispatch.rs:241-361 | exit code 0 completes the run and passes its task; any other, or none, fails both with the code as the reason; no other run or task changes |
| CycleCompletion.SlotFreed | crates/openclaw-ui/src/dispatch.rs:355-362 | one slot of the exiting worker's instance is freed, unless it has none in use, and no other instance changes |
| CycleCompletion.Database.CheckCycleCompletion | crates/openclaw-ui/src/dispatch.rs:380-464 | the cycle changes only if all its tasks are terminal, to the state those tasks deserve |
| CycleCompletion.CountsTell | crates/openclaw-ui/src/dispatch.rs:400-435 | the counts of the query mean all terminal, all passed, and no tasks, both ways |
| CycleCompletion.CyclesAlwaysAgree | crates/openclaw-ui/src/dispatch.rs:234-464 | over every run of worker exits, and of planner, scheduler and projector steps that open work, a cycle whose tasks are all terminal shows the state they deserve |
| CycleCompletion.FinishedCycleSays | crates/openclaw-ui/src/dispatch.rs:430-448 | in every such run a cycle whose tasks are all terminal is completed iff all of them passed; otherwise it has failed, with the number that passed out of all as the reason |
| CycleCompletion.ClosingKeepsAgreementIff | crates/openclaw-orchestrator/src/app/task_projector.rs:197-289 | closing a task of an active cycle by an event keeps the agreement iff another task of the cycle is open |
| CycleCompletion.CancelledCycleCompletes | crates/openclaw-ui/src/dispatch.rs:446-448 | whatever state the cycle had, also cancelled, it is completed when the worker of its last unpassed task exits well |
| CycleCompletion.NotSettledEarly | crates/openclaw-ui/src/dispatch.rs:426-428 | while a task of a cycle is open the cycle's state stays put |
| DiscordGateway.RunSession | crates/openclaw-gateway/src/discord.rs:606-774 | the session loop yields the specified end, resume state, heartbeats and forwarded messages |
| DiscordGateway.LiveIsLatest | crates/openclaw-gateway/src/discord.rs:607-758 | a running session holds the last sequence number and session id received (or those it resumed), its own READY's address, the last acknowledgement, and whether a heartbeat is unanswered |
| DiscordGateway.BeatGivesUpIff | crates/openclaw-gateway/src/discord.rs:618-642 | in fresh and resumed sessions the heartbeat timer gives up iff a heartbeat is unanswered and the last acknowledgement is more than 45 s old, or the heartbeat cannot be sent; otherwise it carries the last sequence number received, or before the first the one resumed with |
| DiscordGateway.ForwardsHumans | crates/openclaw-gateway/src/discord.rs:689-705 | a session forwards exactly the messages of people it reads, in order, and none of bots |
| DiscordGateway.CloseEnds | crates/openclaw-gateway/src/discord.rs:646-676 | a close is fatal for 4004 and 4010 to 4014, and clean for every other code |
| DiscordGateway.InvalidationLeaves | crates/openclaw-gateway/src/discord.rs:736-748 | an invalidated session leaves nothing to resume, or, if the server calls it resumable, what it was resumed from |
| DiscordGateway.AddressLeft | crates/openclaw-gateway/src/discord.rs:607-760 | if an event ends a session and something can be resumed, the resume state carries the address this session announced, or none, when the event stores the state, and otherwise is the state from before |
| DiscordGateway.EndTellsWhatWasSeen | crates/openclaw-gateway/src/discord.rs:644-772 | a session ends as invalid, or fatally, iff it read such an event |
| DiscordReconnect.RunLoop | crates/openclaw-gateway/src/discord.rs:448-528 | the loop makes exactly the specified attempts and pauses |
| DiscordReconnect.EveryResumeIsGrounded | crates/openclaw-gateway/src/discord.rs:448-774 | every Resume ever sent names a session announced by READY, and a sequence number received, since the last fresh identification, with no invalidation since |
| DiscordReconnect.ResumesUntilInvalidated | crates/openclaw-gateway/src/discord.rs:503-507 | once something can be resumed the next connection resumes iff no invalidation was read; after one it identifies afresh |
| DiscordReconnect.FatalCloseIsLast | crates/openclaw-gateway/src/discord.rs:492-496 | after a fatal close code there is no further connection and no pause |
| DiscordReconnect.NextAddress | crates/openclaw-gateway/src/discord.rs:457-474 | the address of every attempt after the first: the configured one when identifying; what the connection before announced, or the configured one, when that one ended by storing its state; otherwise where that one went |
| DiscordReconnect.AddressUsedTwiceOrForgotten | crates/openclaw-gateway/src/discord.rs:457-474 | one announced address serves two resumes in a row if connecting fails, and is forgotten after one by a resumed session that loses its stream |
| DiscordReconnect.DelaysAreSmallPowers | crates/openclaw-gateway/src/discord.rs:509-516 | the delay, and every pause after an error, is one of 1, 2, 4, 8, 16, 32, 64 s |
| DiscordReconnect.DelayAfter | crates/openclaw-gateway/src/discord.rs:478-517 | the pause and the exact next delay after an error and after a clean end, by how long the pass took with its pause |
| DiscordReconnect.BackOffStartsOver | crates/openclaw-gateway/src/discord.rs:509-516 | while connections fail quickly, before or after the session opened, the pauses run 1 to 64 and start over at 1 |
| Watchdog.ActivityWatchdog.CheckOnce | crates/openclaw-agent/src/watchdog.rs:101-137 | one turn of the loop stops quietly, fires for idleness, fires for wall-clock time, or goes on, in that order |
| Watchdog.WatchingIff | crates/openclaw-agent/src/watchdog.rs:98-138 | in every run the loop goes on iff every check found the agent within both limits and not cancelled, and does not cancel before |
| Watchdog.VerdictIs | crates/openclaw-agent/src/watchdog.rs:101-137 | the first check that does not decides, whatever happens later: quiet if cancelled outside, else idle before wall clock |
| Watchdog.StoppedInTime | crates/openclaw-agent/src/watchdog.rs:78-138 | while the agent is watched, no moment within `gap` of a check is more than `gap` past the wall-clock limit, whatever the agent does; nor past the idle limit since its last activity, unless the clock of the activities went back |
| Debounce.MessageDebouncer.AddMessage | crates/openclaw-gateway/src/debounce.rs:32-62 | a message joins its key's batch, which is handed on joined iff it is full; other keys are untouched |
| Debounce.JoinSays | crates/openclaw-gateway/src/debounce.rs:46-47 | the joined text of messages is their texts with a blank line between them |
| Debounce.MessageDebouncer.CheckTimer | crates/openclaw-gateway/src/debounce.rs:64-84 | one look of the waiting loop: gone, too early, or the batch |
| Debounce.NothingLostOrRepeated | crates/openclaw-gateway/src/debounce.rs:32-84 | under any interleaving, per key, the batches handed on followed by the pending one are the added messages, each once, in order |
| Debounce.PendingIsPartial | crates/openclaw-gateway/src/debounce.rs:35-52 | a pending batch is never empty and never full, and holds the time of its last message |
| Debounce.BatchSizes | crates/openclaw-gateway/src/debounce.rs:44-52 | batches handed on are never empty nor above the limit, and exactly full if an addition released them |
| Debounce.TimerFlushIff | crates/openclaw-gateway/src/debounce.rs:64-84 | a look at the clock hands a batch on iff there is one and no message came within the quiet period |
| SplitMessage.Split | crates/openclaw-gateway/src/handler_utils.rs:92-108 | the loop terminates, also when it cuts at position 0, and yields the specified chunks |
| SplitMessage.OneCut | crates/openclaw-gateway/src/handler_utils.rs:102-105 | a text is its first chunk, a run of newlines, and a rest not starting with one; the cut is at the last newline that fits, or the chunk is full and has none |
| SplitMessage.TextIsChunksAndNewlines | crates/openclaw-gateway/src/discord.rs:777-793 | the text is the chunks interleaved with runs of newlines only |
| SplitMessage.OnlyNewlinesAreLost | crates/openclaw-gateway/src/handler_utils.rs:92-108 | a text that fits is one chunk; of every other all characters but newlines survive in order |
| SplitMessage.ChunksFit | crates/openclaw-gateway/src/handler_utils.rs:92-108 | no chunk is longer than the limit |
| SplitMessage.EmptyChunkIff | crates/openclaw-gateway/src/handler_utils.rs:92-108 | a chunk of the result is empty iff the text is empty, or it is the first of a text that does not fit, opens with a newline and has no other newline that fits |

## Left out

- Text is ASCII: byte slicing at UTF-8 boundaries and decoding of chunks are not modelled.
- Hashes are injective: the loop detector keeps the hashed texts themselves.
- JSON parsing is a parameter; storing and reloading tool calls as JSON is taken to be lossless.
- Network and process I/O, SQL, and failing writes to the database: writes succeed, and a turn's rows are stored in one step. `Session.ArrivalBetweenRows` says when a row stored in between does no harm.
- Session: two turns of one session running at the same time, and a session deleted while a turn runs, are not modelled; a subagent result that finds no session is dropped by the source, that is, a run without that step.
- AgentTurn: usage totals, elapsed time, logging and the runtime events for the user interface are not modelled; the rejection text and the wording of loop warnings are abbreviated.
- Streaming.StreamCompletion: 32-bit wrap-around is modelled in the usage estimate only, not for usage numbers the server reports.
- Anthropic.ReadStream: log entries are not modelled.
- Fallback.FallbackProvider.Complete: requests run one after the other; `complete_streaming` has the same loop and is not repeated.
- Cron.CronState.Tick: running the due job and delivering its answer are not modelled; matching of cron expressions and the rough time-zone arithmetic are a parameter.
- Cron.FiringsAreApart: for times from the anchor on, because before it the division truncates the other way; `FiringsKeepGuard` and `BeforeAnchorOnlyGuard` say what holds there.
- RateLimit.RateLimiter.constructor: requires a limit of at least 1; with 0 the source asks for the oldest of no messages and panics.
- SplitMessage.Split: requires a limit of at least 1; with 0 the source does not terminate.
- DiscordGateway.RunSession: the log output, the failure counter that only feeds it, and connection metrics are not modelled; connecting, the hello and sending the opening message succeed or fail as a whole.
- Debounce: the flush handle of a batch, which nothing ever sets, is not modelled.
- Watchdog: sleeping between checks is not modelled; a run has checks at arbitrary times.
- CycleCompletion: cost and output columns, timestamps and emitted events are not modelled; cycle events that change a cycle whose tasks are all terminal (completing, merging) are no step of a run.
- The subagent registry, the MCP task manager and pagination: registries and paging whose properties are local to one operation.
- Commands, help texts, configuration, routing, authentication, metrics, voice, browser and plugin code.
