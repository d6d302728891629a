/** What the replies of a round of tool calls say
    (crates/openclaw-agent/src/runtime.rs:434-482): each carries the text of its own call's
    outcome, with the note of a warning behind it, or the note that blocked the call. */
module ReplyContents {
  import opened Common
  import opened Messages
  import opened LoopDetection
  import opened LoopRuns
  import opened Tools
  import opened ToolRound

  /** The text of an outcome: the output of a known tool, marked if it is an error. */
  predicate IsText(tools: seq<string>, name: string, run: ToolRun, text: string) {
    if name !in tools then text == "[ERROR] " + ("Tool error: " + ("Unknown tool: " + name))
    else
      match run
      case Ran(output, isError) => text == if isError then "[ERROR] " + output else output
      case Failed(error) => text == "[ERROR] " + ("Tool error: " + error)
  }

  /** The content shows a text: all of it, or its first 24000 and last 8000 characters. */
  predicate Shows(content: Option<string>, text: string) {
    && content.Some?
    && var c := content.value;
       if |text| <= 32000 then c == text
       else |c| >= 32000 && c[..24000] == text[..24000] && c[|c| - 8000..] == text[|text| - 8000..]
  }

  lemma {:induction false} ResultTextIs(tools: seq<string>, call: Call, run: ToolRun, text: string)
    requires IsText(tools, call.name, run, text)
    ensures ResultText(RunOne(tools, call, run)) == text
  {
    if call.name !in tools {
      ConcatAssociative("[ERROR] ", "Tool error: ", "Unknown tool: " + call.name);
    } else if run.Failed? {
      ConcatAssociative("[ERROR] ", "Tool error: ", run.error);
    }
  }

  lemma {:induction false} TruncationShows(text: string)
    ensures Shows(Some(TruncateToolOutput(text)), text)
  {
    TruncationKeepsEnds(text);
    if |text| > MAX_TOOL_OUTPUT_CHARS {
      assert |text[..24000]| == 24000 && |text[|text| - 8000..]| == 8000;
    }
  }

  /** Every note says the count of its verdict. */
  lemma {:induction false} NoteTellsCount(v: Verdict, call: Call) returns (i: nat)
    requires !v.Allow?
    ensures var note, digits := Note(v, call), Decimal(v.count);
            i + |digits| <= |note| && note[i..i + |digits|] == digits
  {
    var before := (if v.Warn? then "WARNING: " else "BLOCKED: ") + call.name + " called ";
    assert Note(v, call) == before + Decimal(v.count) + " times";
    i := |before|;
  }

  /** The note of a truncated text says how many characters are left out. */
  lemma {:induction false} TruncationTellsCount(omitted: nat)
    ensures var note, digits := TruncationNote(omitted), Decimal(omitted);
            7 + |digits| <= |note| && note[7..7 + |digits|] == digits
  {
    assert |"\n\n... ["| == 7;
  }

  /** A call is prepared under its own name, with its arguments as parsed, or with the empty
      object if they do not parse. */
  lemma {:induction false} PreparedSays(world: World, calls: seq<ToolCall>, k: nat)
    requires k < |calls|
    ensures |Prepare(world, calls)| == |calls|
    ensures var args := world.parseArgs(calls[k].func.arguments);
            var prepared := Prepare(world, calls)[k];
            && prepared.name == calls[k].func.name
            && prepared.args == if args.Some? then args.value else "{}"
  {
  }

  /** A call that may run is answered with the text of its own outcome, the run at its place
      among the calls of the batch that may run; a warned one with the note behind it. */
  lemma {:induction false} ExecutedReplySays(world: World, h: seq<Record>, calls: seq<ToolCall>, runs: nat -> ToolRun,
                                             k: nat, text: string)
    requires k < |calls|
    requires !VerdictAt(world.config, h, Prepare(world, calls), k).Block?
    requires IsText(world.tools, calls[k].func.name,
                    runs(|Allowed(world.config, h, Prepare(world, calls)[..k])|), text)
    ensures var batch := Prepare(world, calls);
            var v := VerdictAt(world.config, h, batch, k);
            var reply := RoundReplies(world, h, calls, runs)[k];
            && reply.role.Tool? && reply.toolCallId == Some(calls[k].id)
            && (v.Allow? ==> Shows(reply.content, text))
            && (v.Warn? ==> Note(v, batch[k]) != ""
                            && Shows(reply.content, text + "\n\n[SYSTEM: " + Note(v, batch[k]) + "]"))
  {
    var batch := Prepare(world, calls);
    var v := VerdictAt(world.config, h, batch, k);
    ResultTextIs(world.tools, batch[k], runs(Slot(world, h, batch, k)), text);
    NoteEmptyIff(v, batch[k]);
    TruncationShows(text);
    TruncationShows(text + "\n\n[SYSTEM: " + Note(v, batch[k]) + "]");
  }

  /** A blocked call is answered with the note that blocks it, whatever the runs return. */
  lemma {:induction false} BlockedReplySays(world: World, h: seq<Record>, calls: seq<ToolCall>, runs: nat -> ToolRun,
                                            k: nat)
    requires k < |calls|
    requires VerdictAt(world.config, h, Prepare(world, calls), k).Block?
    ensures var batch := Prepare(world, calls);
            var note := Note(VerdictAt(world.config, h, batch, k), batch[k]);
            var reply := RoundReplies(world, h, calls, runs)[k];
            && reply.role.Tool? && reply.toolCallId == Some(calls[k].id)
            && "BLOCKED: " <= note && Shows(reply.content, "[ERROR] " + note)
  {
    var batch := Prepare(world, calls);
    var v := VerdictAt(world.config, h, batch, k);
    TruncationShows("[ERROR] " + Note(v, batch[k]));
    assert "BLOCKED: " <= "BLOCKED: " + batch[k].name;
  }

  /** What the detector is told of the i-th call that ran is the whole text of its outcome,
      without truncation or note. */
  lemma {:induction false} DetectorHearsText(world: World, h: seq<Record>, batch: seq<Call>, runs: nat -> ToolRun,
                                             i: nat, text: string)
    requires i < |Allowed(world.config, h, batch)|
    requires IsText(world.tools, Allowed(world.config, h, batch)[i].name, runs(i), text)
    ensures DetectorRound(world, h, batch, runs).outputs(i) == text
  {
    ResultTextIs(world.tools, Allowed(world.config, h, batch)[i], runs(i), text);
  }
}
