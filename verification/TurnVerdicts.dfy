/** What LoopVerdicts says about runs of the loop detector, carried over to agent turns: a
    detector can block a call in some run exactly when it can in some turn. */
module TurnVerdicts {
  import opened Common
  import opened Messages
  import opened LoopDetection
  import opened LoopRuns
  import opened LoopVerdicts
  import opened Tools
  import opened ToolRound
  import opened AgentTurn

  predicate BlockedBy(v: Verdict, detector: Detector) {
    v.Block? && v.detector == detector
  }

  /** In a round with these calls, the detector blocks one of them. */
  ghost predicate BlocksInRound(world: World, window: seq<Record>, calls: seq<ToolCall>, detector: Detector) {
    exists k :: 0 <= k < |calls| && BlockedBy(VerdictAt(world.config, window, Prepare(world, calls), k), detector)
  }

  /** In the rest of the turn, the detector blocks some call. */
  ghost predicate BlocksInTurn(world: World, base: seq<Message>, st: TurnState, script: nat -> RoundInput,
                               detector: Detector)
    requires st.rounds <= MAX_TOOL_ROUNDS
    decreases MAX_TOOL_ROUNDS - st.rounds
  {
    var input := script(st.rounds);
    match OneRound(world, base, st, input)
    case Ended(_, _) => false
    case Continues(next) =>
      || (input.reply.value.ToolCalls? && BlocksInRound(world, st.window, input.reply.value.calls, detector))
      || BlocksInTurn(world, base, next, script, detector)
  }

  // ----- Turns are runs -----

  lemma {:induction false} TurnBlockOccurs(world: World, base: seq<Message>, st: TurnState, script: nat -> RoundInput,
                                           detector: Detector, rounds: seq<Round>)
    requires st.rounds <= MAX_TOOL_ROUNDS && WindowOfRun(world.config, st, rounds)
    requires BlocksInTurn(world, base, st, script, detector)
    ensures Occurs(world.config, detector)
    decreases MAX_TOOL_ROUNDS - st.rounds
  {
    var input := script(st.rounds);
    var next := OneRound(world, base, st, input).st;
    if !input.reply.value.ToolCalls? {
      TurnBlockOccurs(world, base, next, script, detector, rounds);
    } else if BlocksInRound(world, st.window, input.reply.value.calls, detector) {
      RoundBlockOccurs(world, input.reply.value.calls, detector, rounds);
    } else {
      var round := DetectorRound(world, st.window, Prepare(world, input.reply.value.calls), input.runs);
      assert (rounds + [round])[..|rounds|] == rounds;
      TurnBlockOccurs(world, base, next, script, detector, rounds + [round]);
    }
  }

  lemma {:induction false} RoundBlockOccurs(world: World, calls: seq<ToolCall>, detector: Detector, rounds: seq<Round>)
    requires |rounds| < MAX_TOOL_ROUNDS
    requires BlocksInRound(world, AfterRounds(world.config, rounds), calls, detector)
    ensures Occurs(world.config, detector)
  {
    var batch := Prepare(world, calls);
    var window := AfterRounds(world.config, rounds);
    var k :| 0 <= k < |calls| && BlockedBy(VerdictAt(world.config, window, batch, k), detector);
    assert OccursAt(world.config, detector, rounds, batch[..k], batch[k]);
  }

  // ----- Runs are turns -----

  function AsToolCalls(calls: seq<Call>): seq<ToolCall> {
    seq(|calls|, i requires 0 <= i < |calls| => ToolCall("", "function", FunctionCall(calls[i].name, calls[i].args)))
  }

  function Names(calls: seq<Call>): seq<string> {
    seq(|calls|, i requires 0 <= i < |calls| => calls[i].name)
  }

  function NamesIn(rounds: seq<Round>): seq<string> {
    if rounds == [] then [] else Names(rounds[0].calls) + NamesIn(rounds[1..])
  }

  /** A world that knows the tools of a run and takes arguments as they are. */
  function WorldOf(cfg: Config, rounds: seq<Round>): World {
    World(NamesIn(rounds), (arguments: string) => Some(arguments), cfg)
  }

  function MakesCalls(calls: seq<Call>, runs: nat -> ToolRun): RoundInput {
    RoundInput(false, false, Some(ToolCalls(AsToolCalls(calls), None)), runs)
  }

  /** The r-th round makes the calls of the run's r-th round, and they return its outputs;
      the round after that makes the calls of the last batch. */
  function Play(rounds: seq<Round>, last: seq<Call>, r: nat): RoundInput {
    if r < |rounds| then MakesCalls(rounds[r].calls, (i: nat) => Ran(rounds[r].outputs(i), false))
    else MakesCalls(last, (i: nat) => Ran("", false))
  }

  lemma {:induction false} PreparedIsCalls(cfg: Config, rounds: seq<Round>, calls: seq<Call>)
    ensures Prepare(WorldOf(cfg, rounds), AsToolCalls(calls)) == calls
  {
  }

  lemma {:induction false} NameKnown(rounds: seq<Round>, r: nat, call: Call)
    requires r < |rounds| && call in rounds[r].calls
    ensures call.name in NamesIn(rounds)
    decreases r
  {
    if r == 0 {
      var i :| 0 <= i < |rounds[0].calls| && rounds[0].calls[i] == call;
      assert Names(rounds[0].calls)[i] == call.name;
    } else {
      NameKnown(rounds[1..], r - 1, call);
    }
  }

  lemma {:induction false} AllowedAreCalls(cfg: Config, h: seq<Record>, calls: seq<Call>)
    ensures forall c :: c in Allowed(cfg, h, calls) ==> c in calls
    decreases |calls|
  {
    if calls != [] {
      AllowedAreCalls(cfg, h, calls[..|calls| - 1]);
    }
  }

  lemma {:induction false} OutcomesByValue(h: seq<Record>, ran: seq<Call>, f: nat -> string, g: nat -> string)
    requires forall i :: 0 <= i < |ran| ==> f(i) == g(i)
    ensures Outcomes(h, ran, f) == Outcomes(h, ran, g)
    decreases |ran|
  {
    if ran != [] {
      OutcomesByValue(h, ran[..|ran| - 1], f, g);
    }
  }

  /** Played in a turn, a round of the run takes the detector where the run takes it. */
  lemma {:induction false} PlayedRound(cfg: Config, rounds: seq<Round>, last: seq<Call>, r: nat, h: seq<Record>)
    requires r < |rounds|
    ensures AfterRound(cfg, h, DetectorRound(WorldOf(cfg, rounds), h, rounds[r].calls, Play(rounds, last, r).runs))
         == AfterRound(cfg, h, rounds[r])
  {
    var world, ran := WorldOf(cfg, rounds), Allowed(cfg, h, rounds[r].calls);
    var played := DetectorRound(world, h, rounds[r].calls, Play(rounds, last, r).runs);
    AllowedAreCalls(cfg, h, rounds[r].calls);
    forall i | 0 <= i < |ran| ensures played.outputs(i) == rounds[r].outputs(i) {
      NameKnown(rounds, r, ran[i]);
    }
    OutcomesByValue(Attempts(cfg, h, rounds[r].calls), ran, played.outputs, rounds[r].outputs);
  }

  lemma {:induction false} RoundWithCalls(world: World, base: seq<Message>, st: TurnState, input: RoundInput)
    requires st.rounds < MAX_TOOL_ROUNDS && !input.cancelledBefore && !input.cancelledDuring
    requires input.reply.Some? && input.reply.value.ToolCalls?
    ensures var calls := input.reply.value.calls;
            var p := OneRound(world, base, st, input);
            && p.Continues?
            && p.st.window == AfterRound(world.config, st.window,
                                         DetectorRound(world, st.window, Prepare(world, calls), input.runs))
  {
  }

  lemma {:induction false} PlayedStep(cfg: Config, rounds: seq<Round>, last: seq<Call>, st: TurnState)
    requires st.rounds <= |rounds| < MAX_TOOL_ROUNDS && st.window == AfterRounds(cfg, rounds[..st.rounds])
    ensures var r := st.rounds;
            var p := OneRound(WorldOf(cfg, rounds), [], st, Play(rounds, last, r));
            && p.Continues?
            && (r < |rounds| ==> p.st.window == AfterRounds(cfg, rounds[..r + 1]))
  {
    var r := st.rounds;
    var input := Play(rounds, last, r);
    RoundWithCalls(WorldOf(cfg, rounds), [], st, input);
    if r < |rounds| {
      PreparedIsCalls(cfg, rounds, rounds[r].calls);
      PlayedRound(cfg, rounds, last, r, st.window);
      assert rounds[..r + 1][..r] == rounds[..r];
    }
  }

  lemma {:induction false} PlayedRun(cfg: Config, rounds: seq<Round>, before: seq<Call>, call: Call, detector: Detector,
                                     st: TurnState, script: nat -> RoundInput)
    requires OccursAt(cfg, detector, rounds, before, call)
    requires forall r: nat :: script(r) == Play(rounds, before + [call], r)
    requires st.rounds <= |rounds| && st.window == AfterRounds(cfg, rounds[..st.rounds])
    ensures BlocksInTurn(WorldOf(cfg, rounds), [], st, script, detector)
    decreases |rounds| - st.rounds
  {
    PlayedStep(cfg, rounds, before + [call], st);
    assert script(st.rounds) == Play(rounds, before + [call], st.rounds);
    if st.rounds == |rounds| {
      TakeAll(rounds);
      LastBatchBlocks(cfg, rounds, before, call, detector);
    } else {
      var next := OneRound(WorldOf(cfg, rounds), [], st, script(st.rounds)).st;
      PlayedRun(cfg, rounds, before, call, detector, next, script);
    }
  }

  lemma {:induction false} LastBatchBlocks(cfg: Config, rounds: seq<Round>, before: seq<Call>, call: Call,
                                           detector: Detector)
    requires OccursAt(cfg, detector, rounds, before, call)
    ensures BlocksInRound(WorldOf(cfg, rounds), AfterRounds(cfg, rounds), AsToolCalls(before + [call]), detector)
  {
    var batch := before + [call];
    PreparedIsCalls(cfg, rounds, batch);
    assert batch[..|before|] == before && batch[|before|] == call;
    assert BlockedBy(VerdictAt(cfg, AfterRounds(cfg, rounds), batch, |before|), detector);
  }

  // ----- Exactly the same detectors -----

  ghost predicate OccursInTurn(cfg: Config, detector: Detector) {
    exists world: World, base: seq<Message>, script: nat -> RoundInput ::
      world.config == cfg && BlocksInTurn(world, base, START, script, detector)
  }

  lemma {:induction false} RunIsPlayed(cfg: Config, detector: Detector)
    requires Occurs(cfg, detector)
    ensures OccursInTurn(cfg, detector)
  {
    var rounds: seq<Round>, before: seq<Call>, call: Call :| OccursAt(cfg, detector, rounds, before, call);
    var script := (r: nat) => Play(rounds, before + [call], r);
    assert rounds[..0] == [] && AfterRounds(cfg, []) == [];
    PlayedRun(cfg, rounds, before, call, detector, START, script);
    assert WorldOf(cfg, rounds).config == cfg;
  }

  lemma {:induction false} TurnIsRun(cfg: Config, detector: Detector)
    requires OccursInTurn(cfg, detector)
    ensures Occurs(cfg, detector)
  {
    var world: World, base: seq<Message>, script: nat -> RoundInput :|
      world.config == cfg && BlocksInTurn(world, base, START, script, detector);
    assert AfterRounds(cfg, []) == [];
    TurnBlockOccurs(world, base, START, script, detector, []);
  }

  /** A detector blocks a call of some turn exactly when it does in some detector run. */
  lemma {:induction false} OccursInTurnIff(cfg: Config, detector: Detector)
    ensures OccursInTurn(cfg, detector) <==> Occurs(cfg, detector)
  {
    if OccursInTurn(cfg, detector) {
      TurnIsRun(cfg, detector);
    }
    if Occurs(cfg, detector) {
      RunIsPlayed(cfg, detector);
    }
  }

  /** Under the default thresholds exactly the repeat and the ping-pong check ever block a
      call of a turn. */
  lemma {:induction false} DefaultTurns()
    ensures !OccursInTurn(DEFAULT_CONFIG, CircuitBreaker) && !OccursInTurn(DEFAULT_CONFIG, NoProgress)
    ensures OccursInTurn(DEFAULT_CONFIG, GenericRepeat) && OccursInTurn(DEFAULT_CONFIG, PingPong)
  {
    DefaultDetectors();
    OccursInTurnIff(DEFAULT_CONFIG, CircuitBreaker);
    OccursInTurnIff(DEFAULT_CONFIG, NoProgress);
    OccursInTurnIff(DEFAULT_CONFIG, GenericRepeat);
    OccursInTurnIff(DEFAULT_CONFIG, PingPong);
  }
}
