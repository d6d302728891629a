/** One round of tool calls in crates/openclaw-agent/src/runtime.rs: check every call
    against the loop detector, run the allowed ones in parallel, and merge blocked and
    executed calls back into one list of results. */
module ToolRound {
  import opened Common
  import opened Messages
  import opened LoopDetection
  import opened LoopRuns
  import opened Tools

  const MAX_TOOL_OUTPUT_CHARS: nat := 32000

  /** What a turn is given: the registered tools, the JSON parser (canonical text of the
      arguments, or None), and the thresholds of the loop detector. */
  datatype World = World(tools: seq<string>, parseArgs: string -> Option<string>, config: Config)

  function Prepare(world: World, calls: seq<ToolCall>): seq<Call> {
    seq(|calls|, i requires 0 <= i < |calls| =>
      Call(calls[i].func.name, world.parseArgs(calls[i].func.arguments).GetOr("{}")))
  }

  /** The note that goes with a verdict: none for Allow, never empty otherwise. */
  function Note(v: Verdict, call: Call): string {
    match v
    case Allow => ""
    case Warn(_, count) => "WARNING: " + call.name + " called " + Decimal(count) + " times"
    case Block(_, count) => "BLOCKED: " + call.name + " called " + Decimal(count) + " times"
  }

  function ResultText(run: ToolRun): string {
    match run
    case Ran(output, isError) => if isError then "[ERROR] " + output else output
    case Failed(error) => "[ERROR] " + "Tool error: " + error
  }

  /** Long outputs keep their first three quarters and last quarter of the limit. */
  function TruncateToolOutput(output: string): string {
    if |output| <= MAX_TOOL_OUTPUT_CHARS then output
    else
      var head := MAX_TOOL_OUTPUT_CHARS * 3 / 4;
      var tail := MAX_TOOL_OUTPUT_CHARS / 4;
      output[..head] + TruncationNote(|output| - head - tail) + output[|output| - tail..]
  }

  function TruncationNote(omitted: nat): string {
    "\n\n... [" + Decimal(omitted) + " chars truncated] ...\n\n"
  }

  // ----- What a round should produce -----

  /** How many of the calls before k run: the place of call k among the parallel results. */
  function Slot(world: World, h: seq<Record>, batch: seq<Call>, k: nat): nat
    requires k <= |batch|
  {
    |Allowed(world.config, h, batch[..k])|
  }

  /** The result of call k, before any warning is appended. */
  function CallText(world: World, h: seq<Record>, batch: seq<Call>, runs: nat -> ToolRun, k: nat): string
    requires k < |batch|
  {
    var v := VerdictAt(world.config, h, batch, k);
    if v.Block? then ResultText(Ran(Note(v, batch[k]), true))
    else ResultText(RunOne(world.tools, batch[k], runs(Slot(world, h, batch, k))))
  }

  function ReplyText(world: World, h: seq<Record>, batch: seq<Call>, runs: nat -> ToolRun, k: nat): string
    requires k < |batch|
  {
    var v := VerdictAt(world.config, h, batch, k);
    var text := CallText(world, h, batch, runs, k);
    TruncateToolOutput(if v.Warn? then text + "\n\n[SYSTEM: " + Note(v, batch[k]) + "]" else text)
  }

  /** One tool message per call, under the call's own id, in the order of the calls. */
  function RoundReplies(world: World, h: seq<Record>, calls: seq<ToolCall>,
                        runs: nat -> ToolRun): (replies: seq<Message>)
    ensures Answers(replies, calls)
  {
    seq(|calls|, k requires 0 <= k < |calls| =>
      ToolResultMessage(calls[k].id, ReplyText(world, h, Prepare(world, calls), runs, k)))
  }

  /** What the detector records as the result of the i-th call that ran. */
  function RecordedOutput(world: World, ran: seq<Call>, runs: nat -> ToolRun, i: nat): string {
    if i < |ran| then ResultText(RunOne(world.tools, ran[i], runs(i))) else ""
  }

  /** The round as the detector sees it. */
  function DetectorRound(world: World, h: seq<Record>, batch: seq<Call>, runs: nat -> ToolRun): Round {
    var ran := Allowed(world.config, h, batch);
    Round(batch, (i: nat) => RecordedOutput(world, ran, runs, i))
  }

  // ----- Which parallel result belongs to which call -----

  lemma {:induction false} AllowedSnoc(cfg: Config, h: seq<Record>, batch: seq<Call>, k: nat)
    requires k < |batch|
    ensures Allowed(cfg, h, batch[..k + 1])
         == if VerdictAt(cfg, h, batch, k).Block? then Allowed(cfg, h, batch[..k])
            else Allowed(cfg, h, batch[..k]) + [batch[k]]
  {
    assert batch[..k + 1][..k] == batch[..k];
  }

  /** The calls allowed among the first k are a prefix of all allowed calls. */
  lemma {:induction false} AllowedPrefix(cfg: Config, h: seq<Record>, batch: seq<Call>, k: nat)
    requires k <= |batch|
    ensures Allowed(cfg, h, batch[..k]) <= Allowed(cfg, h, batch)
    decreases |batch| - k
  {
    if k == |batch| {
      assert batch[..k] == batch;
    } else {
      AllowedSnoc(cfg, h, batch, k);
      AllowedPrefix(cfg, h, batch, k + 1);
      assert Allowed(cfg, h, batch[..k]) <= Allowed(cfg, h, batch[..k + 1]);
    }
  }

  /** Every allowed call finds its own result in its slot of the parallel results; the
      fallback for a missing result is never used. */
  lemma {:induction false} ParallelResultOfCall(world: World, h: seq<Record>, batch: seq<Call>, runs: nat -> ToolRun,
                                                k: nat)
    requires k < |batch| && !VerdictAt(world.config, h, batch, k).Block?
    ensures var ran := Allowed(world.config, h, batch);
            var slot := Slot(world, h, batch, k);
            && slot < |ran| && ran[slot] == batch[k]
            && ExecuteParallel(world.tools, ran, runs)[slot]
               == (batch[k].name, RunOne(world.tools, batch[k], runs(slot)))
  {
    AllowedSnoc(world.config, h, batch, k);
    AllowedPrefix(world.config, h, batch, k + 1);
  }

  // ----- The round as the source runs it -----

  datatype Decision = Decision(execute: bool, note: string)

  function Decide(v: Verdict, call: Call): Decision {
    Decision(!v.Block?, Note(v, call))
  }

  ghost predicate Decided(world: World, h: seq<Record>, batch: seq<Call>, decisions: seq<Decision>) {
    && |decisions| <= |batch|
    && forall k :: 0 <= k < |decisions| ==> decisions[k] == Decide(VerdictAt(world.config, h, batch, k), batch[k])
  }

  /** Check each call before executing, recording those that may run. */
  method CheckBatch(world: World, detector: LoopDetector, batch: seq<Call>) returns (decisions: seq<Decision>)
    requires detector.config == world.config
    modifies detector
    ensures |decisions| == |batch| && Decided(world, old(detector.history), batch, decisions)
    ensures detector.history == Attempts(world.config, old(detector.history), batch)
    ensures detector.blockedCount
         == old(detector.blockedCount) + |batch| - |Allowed(world.config, old(detector.history), batch)|
  {
    decisions := [];
    ghost var h := detector.history;
    for i := 0 to |batch|
      invariant |decisions| == i && Decided(world, h, batch, decisions)
      invariant detector.history == Attempts(world.config, h, batch[..i])
      invariant detector.blockedCount
             == old(detector.blockedCount) + i - |Allowed(world.config, h, batch[..i])|
    {
      assert batch[..i + 1][..i] == batch[..i];
      AllowedSnoc(world.config, h, batch, i);
      var verdict := detector.Check(batch[i]);
      decisions := decisions + [Decide(verdict, batch[i])];
      match verdict
      case Allow => detector.RecordCall(batch[i]);
      case Warn(_, _) => detector.RecordCall(batch[i]);
      case Block(_, _) => detector.RecordBlock();
    }
    assert batch[..|batch|] == batch;
  }

  /** The calls whose decision is to execute. */
  function ToExecute(batch: seq<Call>, decisions: seq<Decision>): seq<Call>
    requires |decisions| == |batch|
  {
    if batch == [] then []
    else
      var k := |batch| - 1;
      ToExecute(batch[..k], decisions[..k]) + if decisions[k].execute then [batch[k]] else []
  }

  lemma {:induction false} ToExecuteSnoc(batch: seq<Call>, decisions: seq<Decision>, k: nat)
    requires k < |batch| == |decisions|
    ensures ToExecute(batch[..k + 1], decisions[..k + 1])
         == ToExecute(batch[..k], decisions[..k]) + if decisions[k].execute then [batch[k]] else []
  {
    assert batch[..k + 1][..k] == batch[..k];
    assert decisions[..k + 1][..k] == decisions[..k];
  }

  lemma {:induction false} ToExecuteIsAllowed(world: World, h: seq<Record>, batch: seq<Call>,
                                              decisions: seq<Decision>, n: nat)
    requires n <= |batch| == |decisions| && Decided(world, h, batch, decisions)
    ensures ToExecute(batch[..n], decisions[..n]) == Allowed(world.config, h, batch[..n])
    decreases n
  {
    if n > 0 {
      ToExecuteIsAllowed(world, h, batch, decisions, n - 1);
      AllowedSnoc(world.config, h, batch, n - 1);
      ToExecuteSnoc(batch, decisions, n - 1);
    }
  }

  /** The outcome of one call: from its parallel result, or from the note that blocks it. */
  function MergedRun(call: Call, decision: Decision, results: seq<(string, ToolRun)>, next: nat): (string, ToolRun) {
    if !decision.execute then (call.name, Ran(decision.note, true))
    else if next < |results| then results[next]
    else (call.name, Failed("Tool execution missing"))
  }

  /** The text of the result message: a warning is appended to an executed call's output. */
  function MergedText(decision: Decision, output: string): string {
    TruncateToolOutput(
      if decision.note != "" && decision.execute then output + "\n\n[SYSTEM: " + decision.note + "]" else output)
  }

  lemma {:induction false} NoteEmptyIff(v: Verdict, call: Call)
    ensures Note(v, call) == "" <==> v.Allow?
  {
  }

  /** In its slot, each call is merged with its own outcome. */
  lemma {:induction false} MergedRunIsCallText(world: World, h: seq<Record>, batch: seq<Call>, runs: nat -> ToolRun,
                                               k: nat)
    requires k < |batch|
    ensures var ran := Allowed(world.config, h, batch);
            var v := VerdictAt(world.config, h, batch, k);
            var slot := Slot(world, h, batch, k);
            var decision := Decide(v, batch[k]);
            var merged := MergedRun(batch[k], decision, ExecuteParallel(world.tools, ran, runs), slot);
            && merged.0 == batch[k].name
            && MergedText(decision, ResultText(merged.1)) == ReplyText(world, h, batch, runs, k)
            && (!v.Block? ==> ResultText(merged.1) == RecordedOutput(world, ran, runs, slot))
  {
    var v := VerdictAt(world.config, h, batch, k);
    NoteEmptyIff(v, batch[k]);
    if !v.Block? {
      ParallelResultOfCall(world, h, batch, runs, k);
    }
  }

  lemma {:induction false} OutcomesSnoc(h: seq<Record>, ran: seq<Call>, call: Call, outputs: nat -> string)
    ensures Outcomes(h, ran + [call], outputs) == Close(Outcomes(h, ran, outputs), call, outputs(|ran|))
  {
    assert (ran + [call])[..|ran|] == ran;
  }

  /** The detector's window after the outcomes of the first k calls of a batch. */
  ghost function WindowAfter(world: World, start: seq<Record>, h: seq<Record>, batch: seq<Call>,
                             runs: nat -> ToolRun, k: nat): seq<Record>
    requires k <= |batch|
  {
    Outcomes(start, Allowed(world.config, h, batch[..k]), DetectorRound(world, h, batch, runs).outputs)
  }

  lemma {:induction false} WindowAfterStep(world: World, start: seq<Record>, h: seq<Record>, batch: seq<Call>,
                                           runs: nat -> ToolRun, k: nat)
    requires k < |batch|
    ensures var output := RecordedOutput(world, Allowed(world.config, h, batch), runs, Slot(world, h, batch, k));
            var before := WindowAfter(world, start, h, batch, runs, k);
            var after := WindowAfter(world, start, h, batch, runs, k + 1);
            after == (if VerdictAt(world.config, h, batch, k).Block? then before else Close(before, batch[k], output))
  {
    AllowedSnoc(world.config, h, batch, k);
    OutcomesSnoc(start, Allowed(world.config, h, batch[..k]), batch[k], DetectorRound(world, h, batch, runs).outputs);
  }

  /** What one step of the merge does to the replies, the slot and the window. */
  lemma {:induction false} MergeStep(world: World, start: seq<Record>, h: seq<Record>, calls: seq<ToolCall>,
                                     decision: Decision, runs: nat -> ToolRun, k: nat)
    requires k < |calls|
    requires decision == Decide(VerdictAt(world.config, h, Prepare(world, calls), k), Prepare(world, calls)[k])
    ensures var batch := Prepare(world, calls);
            var results := ExecuteParallel(world.tools, Allowed(world.config, h, batch), runs);
            var slot := Slot(world, h, batch, k);
            var merged := MergedRun(batch[k], decision, results, slot);
            var before := WindowAfter(world, start, h, batch, runs, k);
            && RoundReplies(world, h, calls, runs)[k]
               == ToolResultMessage(calls[k].id, MergedText(decision, ResultText(merged.1)))
            && Slot(world, h, batch, k + 1) == slot + (if decision.execute then 1 else 0)
            && WindowAfter(world, start, h, batch, runs, k + 1)
               == (if decision.execute
                    then Close(before, Call(merged.0, batch[k].args), ResultText(merged.1)) else before)
  {
    var batch := Prepare(world, calls);
    AllowedSnoc(world.config, h, batch, k);
    MergedRunIsCallText(world, h, batch, runs, k);
    WindowAfterStep(world, start, h, batch, runs, k);
  }

  /** One step of the merge: take the call's outcome and record it if the call ran. */
  method MergeCall(world: World, detector: LoopDetector, calls: seq<ToolCall>, decision: Decision,
                   results: seq<(string, ToolRun)>, next: nat, k: nat,
                   ghost start: seq<Record>, ghost h: seq<Record>, ghost runs: nat -> ToolRun)
    returns (reply: Message, next': nat)
    requires k < |calls|
    requires decision == Decide(VerdictAt(world.config, h, Prepare(world, calls), k), Prepare(world, calls)[k])
    requires results == ExecuteParallel(world.tools, Allowed(world.config, h, Prepare(world, calls)), runs)
    requires next == Slot(world, h, Prepare(world, calls), k)
    requires detector.history == WindowAfter(world, start, h, Prepare(world, calls), runs, k)
    modifies detector`history
    ensures reply == RoundReplies(world, h, calls, runs)[k]
    ensures next' == Slot(world, h, Prepare(world, calls), k + 1)
    ensures detector.history == WindowAfter(world, start, h, Prepare(world, calls), runs, k + 1)
  {
    MergeStep(world, start, h, calls, decision, runs, k);
    var call := Prepare(world, calls)[k];
    var merged := MergedRun(call, decision, results, next);
    var output := ResultText(merged.1);
    next' := next;
    if decision.execute {
      next' := next + 1;
      detector.RecordOutcome(Call(merged.0, call.args), output);
    }
    reply := ToolResultMessage(calls[k].id, MergedText(decision, output));
  }

  /** Merge results back: blocked calls get error messages, executed calls the real ones. */
  method MergeResults(world: World, detector: LoopDetector, calls: seq<ToolCall>, decisions: seq<Decision>,
                      results: seq<(string, ToolRun)>, ghost h: seq<Record>, ghost runs: nat -> ToolRun)
    returns (replies: seq<Message>)
    requires |decisions| == |calls| && Decided(world, h, Prepare(world, calls), decisions)
    requires results == ExecuteParallel(world.tools, Allowed(world.config, h, Prepare(world, calls)), runs)
    modifies detector`history
    ensures replies == RoundReplies(world, h, calls, runs)
    ensures detector.history
         == WindowAfter(world, old(detector.history), h, Prepare(world, calls), runs, |calls|)
  {
    ghost var batch := Prepare(world, calls);
    ghost var start := detector.history;
    ghost var wanted := RoundReplies(world, h, calls, runs);
    replies := [];
    var next := 0;
    for i := 0 to |calls|
      invariant next == Slot(world, h, batch, i)
      invariant replies == wanted[..i]
      invariant detector.history == WindowAfter(world, start, h, batch, runs, i)
    {
      var reply;
      reply, next := MergeCall(world, detector, calls, decisions[i], results, next, i, start, h, runs);
      TakeSnoc(wanted, i);
      replies := replies + [reply];
    }
  }

  /** A whole round of tool calls. */
  method RunRound(world: World, detector: LoopDetector, calls: seq<ToolCall>, runs: nat -> ToolRun)
    returns (replies: seq<Message>)
    requires detector.config == world.config
    modifies detector
    ensures replies == RoundReplies(world, old(detector.history), calls, runs)
    ensures detector.history == AfterRound(world.config, old(detector.history),
              DetectorRound(world, old(detector.history), Prepare(world, calls), runs))
    ensures detector.blockedCount
         == old(detector.blockedCount) + |calls| - |Allowed(world.config, old(detector.history), Prepare(world, calls))|
  {
    ghost var h := detector.history;
    var batch := Prepare(world, calls);
    var decisions := CheckBatch(world, detector, batch);
    ToExecuteIsAllowed(world, h, batch, decisions, |batch|);
    assert batch[..|batch|] == batch && decisions[..|decisions|] == decisions;
    var toExecute := ToExecute(batch, decisions);
    var results := [];
    if toExecute != [] {
      results := ExecuteParallel(world.tools, toExecute, runs);
    }
    replies := MergeResults(world, detector, calls, decisions, results, h, runs);
  }

  /** Truncation is the identity within the limit. Otherwise both ends are kept, and the note
      between them says how many characters are missing. */
  lemma {:induction false} TruncationKeepsEnds(output: string)
    ensures var t := TruncateToolOutput(output);
            if |output| <= MAX_TOOL_OUTPUT_CHARS then t == output
            else
              && t[..24000] == output[..24000]
              && t[24000..|t| - 8000] == TruncationNote(|output| - 32000)
              && t[|t| - 8000..] == output[|output| - 8000..]
  {
    if |output| > MAX_TOOL_OUTPUT_CHARS {
      HeadAndTail(output[..24000], TruncationNote(|output| - 32000), output[|output| - 8000..]);
    }
  }

  lemma {:induction false} HeadAndTail(head: string, middle: string, tail: string)
    ensures var t := head + middle + tail;
            t[..|head|] == head && t[|head|..|t| - |tail|] == middle && t[|t| - |tail|..] == tail
  {
  }
}
