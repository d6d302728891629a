/** crates/openclaw-ui/src/dispatch.rs, worker exits: a finished worker settles its run and
    its task, and settles the whole cycle once every task of it has reached a terminal
    state. Database tables are maps keyed by id. */
module CycleCompletion {
  import opened Common

  datatype TaskState = Passed | Failed(reason: string) | Cancelled | Skipped | Open(name: string)

  datatype CycleState = Completed | CycleFailed(reason: string) | Active(name: string)

  datatype RunState = RunCompleted | RunFailed(exitCode: int) | InProgress

  datatype Task = Task(cycle: int, instance: int, state: TaskState)

  datatype Run = Run(task: int, instance: int, state: RunState)

  datatype Cycle = Cycle(instance: int, state: CycleState)

  datatype Tables = Tables(
    runs: map<int, Run>,
    tasks: map<int, Task>,
    cycles: map<int, Cycle>,
    activeRuns: map<int, nat>
  )

  datatype Exit = Exit(run: int, instance: int, exitCode: Option<int>)

  predicate Terminal(s: TaskState) {
    !s.Open?
  }

  // ----- The cycle's tasks, counted as the query does -----

  function TasksOf(tasks: map<int, Task>, cycle: int, instance: int): set<int> {
    set t | t in tasks && tasks[t].cycle == cycle && tasks[t].instance == instance
  }

  function OpenOf(tasks: map<int, Task>, cycle: int, instance: int): set<int> {
    set t | t in tasks && tasks[t].cycle == cycle && tasks[t].instance == instance && !Terminal(tasks[t].state)
  }

  function PassedOf(tasks: map<int, Task>, cycle: int, instance: int): set<int> {
    set t | t in tasks && tasks[t].cycle == cycle && tasks[t].instance == instance && tasks[t].state == Passed
  }

  function Share(passed: nat, total: nat): string {
    Decimal(passed) + "/" + Decimal(total) + " tasks passed"
  }

  /** The state a cycle of finished tasks deserves. */
  ghost predicate Deserves(tasks: map<int, Task>, cycle: int, instance: int, state: CycleState) {
    if forall t :: t in TasksOf(tasks, cycle, instance) ==> tasks[t].state == Passed then state == Completed
    else state == CycleFailed(Share(|PassedOf(tasks, cycle, instance)|, |TasksOf(tasks, cycle, instance)|))
  }

  ghost predicate AllTerminal(tasks: map<int, Task>, cycle: int, instance: int) {
    && TasksOf(tasks, cycle, instance) != {}
    && forall t :: t in TasksOf(tasks, cycle, instance) ==> Terminal(tasks[t].state)
  }

  lemma {:induction false} SameSizeSubset<T>(a: set<T>, b: set<T>)
    requires a <= b
    ensures |a| == |b| <==> a == b
  {
    assert b == a + (b - a) && |b| == |a| + |b - a|;
    assert |b - a| == 0 <==> b - a == {};
  }

  lemma {:induction false} Member<T>(s: set<T>) returns (x: T)
    requires s != {}
    ensures x in s
  {
    x :| x in s;
  }

  /** The counts say what they are read as. */
  lemma {:induction false} CountsTell(tasks: map<int, Task>, cycle: int, instance: int)
    ensures |TasksOf(tasks, cycle, instance)| == 0 <==> TasksOf(tasks, cycle, instance) == {}
    ensures |OpenOf(tasks, cycle, instance)| == 0
       <==> forall t :: t in TasksOf(tasks, cycle, instance) ==> Terminal(tasks[t].state)
    ensures |PassedOf(tasks, cycle, instance)| == |TasksOf(tasks, cycle, instance)|
       <==> forall t :: t in TasksOf(tasks, cycle, instance) ==> tasks[t].state == Passed
  {
    var all, open := TasksOf(tasks, cycle, instance), OpenOf(tasks, cycle, instance);
    var passed := PassedOf(tasks, cycle, instance);
    assert forall t :: t in open <==> t in all && !Terminal(tasks[t].state);
    assert forall t :: t in passed <==> t in all && tasks[t].state == Passed;
    SameSizeSubset(passed, all);
    if open != {} {
      var t := Member(open);
      assert t in all;
    }
    if passed != all {
      var t := Member(all - passed);
      assert t in all;
    }
  }

  class Database {
    var tables: Tables

    constructor (tables: Tables)
      ensures this.tables == tables
    {
      this.tables := tables;
    }

    /** Settles the cycle if the counts allow it. */
    method CheckCycleCompletion(instance: int, task: int)
      modifies this
      ensures tables.runs == old(tables).runs && tables.tasks == old(tables).tasks
      ensures tables.activeRuns == old(tables).activeRuns
      ensures CycleChecked(old(tables), tables.cycles, instance, task)
    {
      if task !in tables.tasks || tables.tasks[task].instance != instance {
        return;
      }
      var cycle := tables.tasks[task].cycle;
      var total := |TasksOf(tables.tasks, cycle, instance)|;
      var nonTerminal := |OpenOf(tables.tasks, cycle, instance)|;
      var passed := |PassedOf(tables.tasks, cycle, instance)|;
      CountsTell(tables.tasks, cycle, instance);
      if nonTerminal > 0 || total == 0 {
        return;
      }
      var state := if passed == total then Completed else CycleFailed(Share(passed, total));
      if cycle in tables.cycles && tables.cycles[cycle].instance == instance {
        tables := tables.(cycles := tables.cycles[cycle := Cycle(instance, state)]);
      }
    }

    method HandleWorkerExit(exit: Exit)
      modifies this
      ensures ExitHandled(old(tables), exit, tables)
    {
      var success := exit.exitCode == Some(0);
      var task := if exit.run in tables.runs && tables.runs[exit.run].instance == exit.instance
                  then Some(tables.runs[exit.run].task) else None;
      var code := exit.exitCode.GetOr(-1);
      if exit.run in tables.runs {
        var state := if success then RunCompleted else RunFailed(code);
        tables := tables.(runs := tables.runs[exit.run := tables.runs[exit.run].(state := state)]);
      }
      if task.Some? && task.value in tables.tasks {
        var state := if success then Passed else Failed(ExitReason(code));
        tables := tables.(tasks := tables.tasks[task.value := tables.tasks[task.value].(state := state)]);
      }
      if exit.instance in tables.activeRuns {
        tables := tables.(activeRuns := tables.activeRuns[exit.instance := OneLess(tables.activeRuns[exit.instance])]);
      }
      if task.Some? {
        CheckCycleCompletion(exit.instance, task.value);
      }
    }
  }

  function OneLess(n: nat): nat {
    if n == 0 then 0 else n - 1
  }

  function ExitReason(code: int): string {
    "worker exited with code " + if code < 0 then "-" + Decimal(-code) else Decimal(code)
  }

  /** Only the cycle of that task can change, only once all of its tasks are terminal, and
      then to the state those tasks deserve. */
  ghost predicate CycleChecked(before: Tables, cycles: map<int, Cycle>, instance: int, task: int) {
    if && task in before.tasks && before.tasks[task].instance == instance
       && before.tasks[task].cycle in before.cycles
       && before.cycles[before.tasks[task].cycle].instance == instance
       && AllTerminal(before.tasks, before.tasks[task].cycle, instance)
    then
      var cycle := before.tasks[task].cycle;
      && cycle in cycles && cycles == before.cycles[cycle := cycles[cycle]] && cycles[cycle].instance == instance
      && Deserves(before.tasks, cycle, instance, cycles[cycle].state)
    else cycles == before.cycles
  }

  // ----- Runs of worker exits -----

  /** The run's task, if the run belongs to the instance that reported it. */
  function TaskOf(t: Tables, exit: Exit): Option<int> {
    if exit.run in t.runs && t.runs[exit.run].instance == exit.instance then Some(t.runs[exit.run].task) else None
  }

  function SettledTasks(t: Tables, exit: Exit): map<int, Task> {
    var task := TaskOf(t, exit);
    if task.Some? && task.value in t.tasks then
      var state := if exit.exitCode == Some(0) then Passed else Failed(ExitReason(exit.exitCode.GetOr(-1)));
      t.tasks[task.value := t.tasks[task.value].(state := state)]
    else t.tasks
  }

  ghost predicate ExitHandled(before: Tables, exit: Exit, after: Tables) {
    && after.tasks == SettledTasks(before, exit)
    && after.runs == (if exit.run in before.runs
                      then before.runs[exit.run := before.runs[exit.run].(state :=
                             if exit.exitCode == Some(0) then RunCompleted else RunFailed(exit.exitCode.GetOr(-1)))]
                      else before.runs)
    && after.activeRuns == (if exit.instance in before.activeRuns
                            then before.activeRuns[exit.instance := OneLess(before.activeRuns[exit.instance])]
                            else before.activeRuns)
    && var task := TaskOf(before, exit);
       if task.Some? then CycleChecked(before.(tasks := after.tasks), after.cycles, exit.instance, task.value)
       else after.cycles == before.cycles
  }

  /** The foreign keys: runs, tasks and cycles that belong together share their instance. */
  ghost predicate Consistent(t: Tables) {
    && (forall r :: r in t.runs ==> t.runs[r].task in t.tasks && t.tasks[t.runs[r].task].instance == t.runs[r].instance)
    && (forall k :: k in t.tasks ==>
          t.tasks[k].cycle in t.cycles && t.cycles[t.tasks[k].cycle].instance == t.tasks[k].instance)
  }

  /** No cycle whose tasks are all terminal shows another state than they deserve. */
  ghost predicate Agrees(t: Tables) {
    forall c :: c in t.cycles && AllTerminal(t.tasks, c, t.cycles[c].instance)
            ==> Deserves(t.tasks, c, t.cycles[c].instance, t.cycles[c].state)
  }

  /** A cycle's tasks are the same in both tables. */
  ghost predicate SameTasks(a: map<int, Task>, b: map<int, Task>, c: int) {
    && a.Keys == b.Keys
    && forall k :: k in a && (a[k].cycle == c || b[k].cycle == c) ==> a[k] == b[k]
  }

  lemma {:induction false} SameTasksSameCycle(a: map<int, Task>, b: map<int, Task>, c: int, instance: int)
    requires SameTasks(a, b, c)
    ensures TasksOf(a, c, instance) == TasksOf(b, c, instance)
    ensures PassedOf(a, c, instance) == PassedOf(b, c, instance)
    ensures AllTerminal(a, c, instance) <==> AllTerminal(b, c, instance)
  {
    assert forall k :: k in TasksOf(a, c, instance) <==> k in TasksOf(b, c, instance);
    assert forall k :: k in PassedOf(a, c, instance) <==> k in PassedOf(b, c, instance);
    assert forall k :: k in TasksOf(a, c, instance) ==> a[k] == b[k];
  }

  /** Settling one task leaves the tasks of every other cycle as they were. */
  lemma {:induction false} OtherCyclesUntouched(t: Tables, exit: Exit, c: int)
    requires TaskOf(t, exit).Some? ==> TaskOf(t, exit).value in t.tasks && t.tasks[TaskOf(t, exit).value].cycle != c
    ensures SameTasks(t.tasks, SettledTasks(t, exit), c)
  {
  }

  /** Every handled exit keeps the tables consistent and the cycles in agreement with their tasks. */
  lemma {:induction false} ExitKeepsAgreement(before: Tables, exit: Exit, after: Tables)
    requires Consistent(before) && Agrees(before) && ExitHandled(before, exit, after)
    ensures Consistent(after) && Agrees(after)
  {
    forall c | c in after.cycles && AllTerminal(after.tasks, c, after.cycles[c].instance)
      ensures Deserves(after.tasks, c, after.cycles[c].instance, after.cycles[c].state)
    {
      var task := TaskOf(before, exit);
      if task.None? || before.tasks[task.value].cycle != c {
        assert c in before.cycles && after.cycles[c] == before.cycles[c];
        OtherCyclesUntouched(before, exit, c);
        SameTasksSameCycle(before.tasks, after.tasks, c, after.cycles[c].instance);
      }
    }
  }

  // ----- Whole runs -----

  /** What planner, scheduler and projectors do between exits: the tasks they add or change
      are open afterwards, and they change cycles only while not all of its tasks are
      terminal. No task leaves its cycle. */
  ghost predicate WorkOpened(before: Tables, after: Tables) {
    && Consistent(after)
    && (forall k :: k in before.tasks ==>
          k in after.tasks && after.tasks[k].cycle == before.tasks[k].cycle
          && after.tasks[k].instance == before.tasks[k].instance)
    && (forall k :: k in after.tasks && Terminal(after.tasks[k].state) ==>
          k in before.tasks && before.tasks[k] == after.tasks[k])
    && (forall c :: c in after.cycles && AllTerminal(after.tasks, c, after.cycles[c].instance) ==>
          c in before.cycles && before.cycles[c] == after.cycles[c])
  }

  lemma {:induction false} OpeningKeepsAgreement(before: Tables, after: Tables)
    requires Consistent(before) && Agrees(before) && WorkOpened(before, after)
    ensures Consistent(after) && Agrees(after)
  {
    forall c | c in after.cycles && AllTerminal(after.tasks, c, after.cycles[c].instance)
      ensures Deserves(after.tasks, c, after.cycles[c].instance, after.cycles[c].state)
    {
      var instance := after.cycles[c].instance;
      forall k | k in TasksOf(after.tasks, c, instance) ensures k in before.tasks && before.tasks[k] == after.tasks[k] {
        assert Terminal(after.tasks[k].state);
      }
      assert forall k :: k in TasksOf(before.tasks, c, instance) <==> k in TasksOf(after.tasks, c, instance);
      assert TasksOf(before.tasks, c, instance) == TasksOf(after.tasks, c, instance);
      assert forall k :: k in PassedOf(before.tasks, c, instance) <==> k in PassedOf(after.tasks, c, instance);
      assert PassedOf(before.tasks, c, instance) == PassedOf(after.tasks, c, instance);
      assert AllTerminal(before.tasks, c, instance);
    }
  }

  datatype Step = WorkerExits(exit: Exit) | OpensWork

  ghost predicate IsStep(before: Tables, step: Step, after: Tables) {
    match step
    case WorkerExits(exit) => ExitHandled(before, exit, after)
    case OpensWork => WorkOpened(before, after)
  }

  ghost predicate IsRun(states: seq<Tables>, steps: seq<Step>) {
    && |states| == |steps| + 1
    && forall i :: 0 <= i < |steps| ==> IsStep(states[i], steps[i], states[i + 1])
  }

  lemma {:induction false} CyclesAlwaysAgree(states: seq<Tables>, steps: seq<Step>, n: nat)
    requires IsRun(states, steps) && Consistent(states[0]) && Agrees(states[0]) && n < |states|
    ensures Consistent(states[n]) && Agrees(states[n])
    decreases n
  {
    if n > 0 {
      CyclesAlwaysAgree(states, steps, n - 1);
      assert IsStep(states[n - 1], steps[n - 1], states[n]);
      match steps[n - 1]
      case WorkerExits(exit) => ExitKeepsAgreement(states[n - 1], exit, states[n]);
      case OpensWork => OpeningKeepsAgreement(states[n - 1], states[n]);
    }
  }

  /** So in every run a cycle whose tasks are all terminal is completed if and only if all of
      them have passed; otherwise it has failed, and its reason counts those that have. */
  lemma {:induction false} FinishedCycleSays(states: seq<Tables>, steps: seq<Step>, n: nat, c: int)
    requires IsRun(states, steps) && Consistent(states[0]) && Agrees(states[0]) && n < |states|
    requires c in states[n].cycles && AllTerminal(states[n].tasks, c, states[n].cycles[c].instance)
    ensures var (tasks, cycle) := (states[n].tasks, states[n].cycles[c]);
            var all := set t | t in tasks && tasks[t].cycle == c && tasks[t].instance == cycle.instance;
            var passed := set t | t in all && tasks[t].state.Passed?;
            && (cycle.state.Completed? <==> passed == all)
            && (passed != all ==>
                  cycle.state == CycleFailed(Decimal(|passed|) + "/" + Decimal(|all|) + " tasks passed"))
  {
    CyclesAlwaysAgree(states, steps, n);
    var tasks, instance := states[n].tasks, states[n].cycles[c].instance;
    var all := set t | t in tasks && tasks[t].cycle == c && tasks[t].instance == instance;
    var passed := set t | t in all && tasks[t].state.Passed?;
    assert all == TasksOf(tasks, c, instance) && passed == PassedOf(tasks, c, instance);
    if forall t :: t in all ==> tasks[t].state == Passed {
      assert forall t :: t in all ==> t in passed;
    }
  }

  // ----- Where agreement ends -----

  /** A task event closes a task; the projector does not look at the cycle. */
  function TaskClosed(t: Tables, task: int, state: TaskState): Tables
    requires task in t.tasks
  {
    t.(tasks := t.tasks[task := t.tasks[task].(state := state)])
  }

  ghost predicate OtherTaskOpen(t: Tables, task: int)
    requires task in t.tasks
  {
    exists k :: k in t.tasks && k != task && t.tasks[k].cycle == t.tasks[task].cycle
                && t.tasks[k].instance == t.tasks[task].instance && !Terminal(t.tasks[k].state)
  }

  /** So closing a task of an active cycle keeps the agreement exactly when another task of
      the cycle is still open. Closing the last one leaves a finished cycle unsettled. */
  lemma {:induction false} ClosingKeepsAgreementIff(before: Tables, task: int, state: TaskState)
    requires Consistent(before) && Agrees(before) && task in before.tasks && Terminal(state)
    requires before.cycles[before.tasks[task].cycle].state.Active?
    ensures Agrees(TaskClosed(before, task, state)) <==> OtherTaskOpen(before, task)
  {
    var after := TaskClosed(before, task, state);
    var cycle, instance := before.tasks[task].cycle, before.tasks[task].instance;
    assert task in TasksOf(after.tasks, cycle, instance);
    assert AllTerminal(after.tasks, cycle, instance) <==> !OtherTaskOpen(before, task) by {
      assert forall k :: k in TasksOf(after.tasks, cycle, instance) <==> k in TasksOf(before.tasks, cycle, instance);
      assert forall k :: k in before.tasks && k != task ==> after.tasks[k] == before.tasks[k];
    }
    forall c | c in after.cycles && c != cycle && AllTerminal(after.tasks, c, after.cycles[c].instance)
      ensures Deserves(after.tasks, c, after.cycles[c].instance, after.cycles[c].state)
    {
      assert SameTasks(before.tasks, after.tasks, c);
      SameTasksSameCycle(before.tasks, after.tasks, c, after.cycles[c].instance);
    }
  }

  /** The cycle's former state does not matter: also one that a user has cancelled is
      completed when the worker of its last unpassed task exits well. */
  lemma {:induction false} CancelledCycleCompletes(before: Tables, exit: Exit, after: Tables)
    requires Consistent(before) && ExitHandled(before, exit, after) && exit.exitCode == Some(0)
    requires TaskOf(before, exit).Some?
    requires var task := before.tasks[TaskOf(before, exit).value];
             forall k :: k in TasksOf(before.tasks, task.cycle, task.instance) && k != TaskOf(before, exit).value
                         ==> before.tasks[k].state == Passed
    ensures var cycle := before.tasks[TaskOf(before, exit).value].cycle;
            cycle in after.cycles && after.cycles[cycle].state == Completed
  {
    var k := TaskOf(before, exit).value;
    var cycle, instance := before.tasks[k].cycle, before.tasks[k].instance;
    assert k in TasksOf(after.tasks, cycle, instance);
    forall t | t in TasksOf(after.tasks, cycle, instance) ensures after.tasks[t].state == Passed {
      if t != k {
        assert t in TasksOf(before.tasks, cycle, instance);
      }
    }
  }

  /** A cycle is never settled early: while one of its tasks is open its state stays put. */
  lemma {:induction false} NotSettledEarly(before: Tables, exit: Exit, after: Tables, c: int)
    requires Consistent(before) && ExitHandled(before, exit, after) && c in before.cycles
    requires !AllTerminal(after.tasks, c, before.cycles[c].instance)
    ensures c in after.cycles && after.cycles[c] == before.cycles[c]
  {
    var task := TaskOf(before, exit);
    if task.Some? && before.tasks[task.value].cycle == c {
      assert after.tasks[task.value].cycle == c;
    }
  }

  // ----- What an exit settles -----

  /** A run that exits with code 0 is completed and its task passed; with any other code, or
      none, both have failed, with the code as the reason. No other run or task changes. */
  lemma {:induction false} ExitSettles(before: Tables, exit: Exit, after: Tables)
    requires Consistent(before) && ExitHandled(before, exit, after)
    requires exit.run in before.runs && before.runs[exit.run].instance == exit.instance
    ensures exit.run in after.runs && before.runs[exit.run].task in after.tasks
    ensures var run, task := after.runs[exit.run], after.tasks[before.runs[exit.run].task];
            match exit.exitCode
            case Some(code) =>
              if code == 0 then run.state == RunCompleted && task.state == Passed
              else run.state == RunFailed(code) && FailedWith(task.state, code)
            case None => run.state == RunFailed(-1) && FailedWith(task.state, -1)
    ensures forall r :: r in before.runs && r != exit.run ==> r in after.runs && after.runs[r] == before.runs[r]
    ensures forall t :: t in before.tasks && t != before.runs[exit.run].task ==>
              t in after.tasks && after.tasks[t] == before.tasks[t]
  {
  }

  /** One slot of the instance is free again, and no other instance has more or fewer. */
  lemma {:induction false} SlotFreed(before: Tables, exit: Exit, after: Tables)
    requires ExitHandled(before, exit, after)
    ensures after.activeRuns.Keys == before.activeRuns.Keys
    ensures forall i :: i in before.activeRuns && (i != exit.instance || before.activeRuns[i] == 0) ==>
              after.activeRuns[i] == before.activeRuns[i]
    ensures exit.instance in before.activeRuns && before.activeRuns[exit.instance] > 0 ==>
              after.activeRuns[exit.instance] + 1 == before.activeRuns[exit.instance]
  {
  }

  predicate FailedWith(state: TaskState, code: int) {
    state.Failed? && state.reason
      == "worker exited with code " + if code < 0 then "-" + Decimal(-code) else Decimal(code)
  }
}
