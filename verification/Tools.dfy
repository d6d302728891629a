/** The tool registry of crates/openclaw-agent/src/tools.rs. A tool is known by its name;
    what an execution returns is up to the tool, so the results of the i-th concurrently
    started execution are an arbitrary input runs(i). */
module Tools {
  import opened LoopDetection

  /** What an execution returns: a tool result, or an error of the execution itself. */
  datatype ToolRun = Ran(output: string, isError: bool) | Failed(error: string)

  function RunOne(tools: seq<string>, call: Call, run: ToolRun): ToolRun {
    if call.name in tools then run else Failed("Unknown tool: " + call.name)
  }

  /** Results in the order of the calls, whatever order the executions finish in. */
  function ExecuteParallel(tools: seq<string>, calls: seq<Call>, runs: nat -> ToolRun): seq<(string, ToolRun)> {
    seq(|calls|, i requires 0 <= i < |calls| => (calls[i].name, RunOne(tools, calls[i], runs(i))))
  }

  function WithoutTool(tools: seq<string>, excluded: string): seq<string> {
    if tools == [] then []
    else if tools[0] == excluded then WithoutTool(tools[1..], excluded)
    else [tools[0]] + WithoutTool(tools[1..], excluded)
  }

  lemma {:induction false} WithoutToolMembers(tools: seq<string>, excluded: string, name: string)
    ensures name in WithoutTool(tools, excluded) <==> name in tools && name != excluded
  {
    if tools != [] {
      WithoutToolMembers(tools[1..], excluded, name);
    }
  }

  /** Removing a tool makes every call of it fail, and changes no other call's result: a
      subagent whose registry lacks `delegate` cannot delegate. */
  lemma {:induction false} WithoutToolDisables(tools: seq<string>, excluded: string, calls: seq<Call>,
                                               runs: nat -> ToolRun, i: nat)
    requires i < |calls|
    ensures var r := ExecuteParallel(WithoutTool(tools, excluded), calls, runs)[i];
            if calls[i].name == excluded then r.1 == Failed("Unknown tool: " + excluded)
            else r == ExecuteParallel(tools, calls, runs)[i]
  {
    WithoutToolMembers(tools, excluded, calls[i].name);
    var left := WithoutTool(tools, excluded);
    assert ExecuteParallel(left, calls, runs)[i] == (calls[i].name, RunOne(left, calls[i], runs(i)));
    assert ExecuteParallel(tools, calls, runs)[i] == (calls[i].name, RunOne(tools, calls[i], runs(i)));
  }
}
