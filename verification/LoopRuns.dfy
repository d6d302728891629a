/** Whole runs of the loop detector, under the protocol of the agent turn
    (crates/openclaw-agent/src/runtime.rs:401-466): in each round every call is checked
    and, unless blocked, recorded; afterwards the outcomes of the calls that ran are
    recorded in the same order. One detector lives for one turn of at most 20 rounds. */
module LoopRuns {
  import opened Common
  import opened LoopDetection

  const MAX_TOOL_ROUNDS := 20

  // ----- The protocol -----

  /** Check a call and record it unless it is blocked. */
  function Attempt(cfg: Config, h: seq<Record>, call: Call): seq<Record> {
    if Judge(cfg, h, call).Block? then h else Push(cfg, h, call)
  }

  function Attempts(cfg: Config, h: seq<Record>, calls: seq<Call>): seq<Record> {
    if calls == [] then h
    else Attempt(cfg, Attempts(cfg, h, calls[..|calls| - 1]), calls[|calls| - 1])
  }

  /** The verdict on the k-th call of a batch. */
  function VerdictAt(cfg: Config, h: seq<Record>, calls: seq<Call>, k: nat): Verdict
    requires k < |calls|
  {
    Judge(cfg, Attempts(cfg, h, calls[..k]), calls[k])
  }

  /** The calls of a batch that may run, in batch order. */
  function Allowed(cfg: Config, h: seq<Record>, calls: seq<Call>): seq<Call> {
    if calls == [] then []
    else
      var k := |calls| - 1;
      if VerdictAt(cfg, h, calls, k).Block? then Allowed(cfg, h, calls[..k])
      else Allowed(cfg, h, calls[..k]) + [calls[k]]
  }

  /** Record the outcomes of the calls that ran; outputs(i) belongs to the i-th of them. */
  function Outcomes(h: seq<Record>, ran: seq<Call>, outputs: nat -> string): seq<Record> {
    if ran == [] then h
    else Close(Outcomes(h, ran[..|ran| - 1], outputs), ran[|ran| - 1], outputs(|ran| - 1))
  }

  datatype Round = Round(calls: seq<Call>, outputs: nat -> string)

  function AfterRound(cfg: Config, h: seq<Record>, round: Round): seq<Record> {
    Outcomes(Attempts(cfg, h, round.calls), Allowed(cfg, h, round.calls), round.outputs)
  }

  function AfterRounds(cfg: Config, rounds: seq<Round>): seq<Record> {
    if rounds == [] then []
    else AfterRound(cfg, AfterRounds(cfg, rounds[..|rounds| - 1]), rounds[|rounds| - 1])
  }

  // ----- The window invariant -----

  /** No call fills the window beyond the critical threshold, and no alternation does
      beyond the larger of that threshold and 4. */
  ghost predicate WindowInvariant(cfg: Config, h: seq<Record>) {
    && |h| <= cfg.historySize
    && (forall call: Call :: IdenticalCount(h, call) <= cfg.critical)
    && AltTail(h) <= Max(cfg.critical, 4)
  }

  lemma {:induction false} CountHead(h: seq<Record>, call: Call)
    requires h != []
    ensures IdenticalCount(h, call) == IdenticalCount(h[1..], call) + if h[0].call == call then 1 else 0
    decreases |h|
  {
    if |h| > 1 {
      CountHead(h[..|h| - 1], call);
      assert h[..|h| - 1][1..] == h[1..][..|h| - 2];
    }
  }

  lemma {:induction false} CountPush(cfg: Config, h: seq<Record>, call: Call, other: Call)
    ensures IdenticalCount(Push(cfg, h, call), other) <= IdenticalCount(h, other) + if call == other then 1 else 0
  {
    var longer := h + [Record(call, None)];
    assert longer[..|h|] == h;
    CountHead(longer, other);
  }

  lemma {:induction false} CountAtMostLength(h: seq<Record>, call: Call)
    ensures IdenticalCount(h, call) <= |h|
    decreases |h|
  {
    if h != [] {
      CountAtMostLength(h[..|h| - 1], call);
    }
  }

  lemma {:induction false} RunAtMostLength(s: seq<string>, x: string)
    ensures RunOf(s, x) <= |s|
    decreases |s|
  {
    if s != [] {
      RunAtMostLength(s[..|s| - 1], x);
    }
  }

  lemma {:induction false} ResultsAtMostCount(h: seq<Record>, call: Call)
    ensures |Results(h, call)| <= IdenticalCount(h, call)
    decreases |h|
  {
    if h != [] {
      ResultsAtMostCount(h[..|h| - 1], call);
    }
  }

  /** The no-progress streak of a call never exceeds the number of its records. */
  lemma {:induction false} StreakAtMostCount(h: seq<Record>, call: Call)
    ensures Streak(h, call) <= IdenticalCount(h, call)
  {
    var rs := Results(h, call);
    ResultsAtMostCount(h, call);
    if rs != [] {
      RunAtMostLength(rs, rs[|rs| - 1]);
    }
  }

  lemma {:induction false} AltRunTail(h: seq<Record>, x: Call, y: Call)
    requires h != []
    ensures AltRun(h[1..], x, y) <= AltRun(h, x, y) <= |h|
    decreases |h|
  {
    if |h| > 1 {
      AltRunTail(h[..|h| - 1], y, x);
      assert h[..|h| - 1][1..] == h[1..][..|h| - 2];
    }
  }

  lemma {:induction false} OtherCallTail(h: seq<Record>, last: Call)
    requires h != []
    ensures OtherCall(h[1..], last).Some? ==> OtherCall(h, last) == OtherCall(h[1..], last)
    decreases |h|
  {
    if |h| > 1 {
      OtherCallTail(h[..|h| - 1], last);
      assert h[..|h| - 1][1..] == h[1..][..|h| - 2];
    }
  }

  /** Evicting the oldest record never lengthens the alternating tail. */
  lemma {:induction false} AltTailEviction(h: seq<Record>)
    requires h != []
    ensures AltTail(h[1..]) <= AltTail(h) <= |h|
  {
    var last := h[|h| - 1].call;
    OtherCallTail(h, last);
    match OtherCall(h, last)
    case None =>
    case Some(other) => AltRunTail(h, last, other);
  }

  /** A new record makes the alternating tail at most one longer, and beyond 2 only when
      it repeats the call the detector compares it with. */
  lemma {:induction false} AltTailPush(h: seq<Record>, call: Call)
    ensures var longer := AltTail(h + [Record(call, None)]);
            || longer <= 2
            || (&& h != []
                && OtherCall(h, h[|h| - 1].call) == Some(call)
                && longer == AltTail(h) + 1)
  {
    var g := h + [Record(call, None)];
    assert g[..|h|] == h;
    assert OtherCall(g, call) == OtherCall(g[..|h|], call);
    if h != [] {
      var last := h[|h| - 1].call;
      if last != call {
        var init := h[..|h| - 1];
        assert AltRun(g, call, last) == 1 + AltRun(g[..|h|], last, call);
        assert AltRun(h, last, call) == 1 + AltRun(init, call, last);
        assert AltTail(g) == AltRun(g, call, last);
        if init != [] && init[|init| - 1].call == call {
          assert OtherCall(h, last) == OtherCall(init, last) == Some(call);
          assert AltTail(h) == AltRun(h, last, call);
        } else {
          assert AltRun(init, call, last) == 0;
        }
      } else {
        match OtherCall(g, call)
        case None =>
        case Some(other) =>
          assert AltRun(g, call, other) == 1 + AltRun(g[..|h|], other, call);
          assert AltRun(h, other, call) == 0;
      }
    }
  }

  lemma {:induction false} AttemptKeepsInvariant(cfg: Config, h: seq<Record>, call: Call)
    requires WindowInvariant(cfg, h)
    ensures WindowInvariant(cfg, Attempt(cfg, h, call))
  {
    if !Judge(cfg, h, call).Block? {
      var g := Push(cfg, h, call);
      forall other ensures IdenticalCount(g, other) <= cfg.critical {
        CountPush(cfg, h, call, other);
      }
      AltTailPush(h, call);
      AltTailEviction(h + [Record(call, None)]);
      if h != [] {
        AltTailEviction(h);
      }
    }
  }

  ghost predicate SameCalls(g: seq<Record>, h: seq<Record>) {
    |g| == |h| && forall i :: 0 <= i < |h| ==> g[i].call == h[i].call
  }

  lemma {:induction false} CloseKeepsCalls(h: seq<Record>, call: Call, output: string)
    ensures SameCalls(Close(h, call, output), h)
    decreases |h|
  {
    if h != [] {
      CloseKeepsCalls(h[..|h| - 1], call, output);
    }
  }

  lemma {:induction false} SameCallsSameScans(g: seq<Record>, h: seq<Record>, x: Call, y: Call)
    requires SameCalls(g, h)
    ensures IdenticalCount(g, x) == IdenticalCount(h, x)
    ensures OtherCall(g, x) == OtherCall(h, x)
    ensures AltRun(g, x, y) == AltRun(h, x, y)
    decreases |h|
  {
    if h != [] {
      assert SameCalls(g[..|g| - 1], h[..|h| - 1]);
      SameCallsSameScans(g[..|g| - 1], h[..|h| - 1], x, y);
      SameCallsSameScans(g[..|g| - 1], h[..|h| - 1], y, x);
    }
  }

  lemma {:induction false} SameCallsKeepInvariant(cfg: Config, g: seq<Record>, h: seq<Record>)
    requires WindowInvariant(cfg, h) && SameCalls(g, h)
    ensures WindowInvariant(cfg, g)
  {
    forall call ensures IdenticalCount(g, call) <= cfg.critical {
      SameCallsSameScans(g, h, call, call);
    }
    if h != [] {
      var last := h[|h| - 1].call;
      SameCallsSameScans(g, h, last, last);
      match OtherCall(h, last)
      case None =>
      case Some(other) => SameCallsSameScans(g, h, last, other);
    }
  }

  lemma {:induction false} AttemptsKeepInvariant(cfg: Config, h: seq<Record>, calls: seq<Call>)
    requires WindowInvariant(cfg, h)
    ensures WindowInvariant(cfg, Attempts(cfg, h, calls))
    decreases |calls|
  {
    if calls != [] {
      var k := |calls| - 1;
      AttemptsKeepInvariant(cfg, h, calls[..k]);
      AttemptKeepsInvariant(cfg, Attempts(cfg, h, calls[..k]), calls[k]);
    }
  }

  lemma {:induction false} OutcomesKeepInvariant(cfg: Config, h: seq<Record>, ran: seq<Call>, outputs: nat -> string)
    requires WindowInvariant(cfg, h)
    ensures WindowInvariant(cfg, Outcomes(h, ran, outputs))
    decreases |ran|
  {
    if ran != [] {
      var k := |ran| - 1;
      OutcomesKeepInvariant(cfg, h, ran[..k], outputs);
      var before := Outcomes(h, ran[..k], outputs);
      CloseKeepsCalls(before, ran[k], outputs(k));
      SameCallsKeepInvariant(cfg, Close(before, ran[k], outputs(k)), before);
    }
  }

  lemma {:induction false} RoundKeepsInvariant(cfg: Config, h: seq<Record>, round: Round)
    requires WindowInvariant(cfg, h)
    ensures WindowInvariant(cfg, AfterRound(cfg, h, round))
  {
    AttemptsKeepInvariant(cfg, h, round.calls);
    OutcomesKeepInvariant(cfg, Attempts(cfg, h, round.calls), Allowed(cfg, h, round.calls), round.outputs);
  }

  /** Every window that any run reaches, also in the middle of a batch, is bounded. */
  lemma {:induction false} RunsAreBounded(cfg: Config, rounds: seq<Round>, batch: seq<Call>)
    ensures WindowInvariant(cfg, AfterRounds(cfg, rounds))
    ensures WindowInvariant(cfg, Attempts(cfg, AfterRounds(cfg, rounds), batch))
    decreases |rounds|
  {
    if rounds != [] {
      RunsAreBounded(cfg, rounds[..|rounds| - 1], []);
      RoundKeepsInvariant(cfg, AfterRounds(cfg, rounds[..|rounds| - 1]), rounds[|rounds| - 1]);
    }
    AttemptsKeepInvariant(cfg, AfterRounds(cfg, rounds), batch);
  }

  // ----- Round boundaries leave no record open -----

  /** The number of records of a call that still wait for a result. */
  function OpenCount(h: seq<Record>, call: Call): nat {
    if h == [] then 0
    else OpenCount(h[..|h| - 1], call) +
         if h[|h| - 1].call == call && h[|h| - 1].result.None? then 1 else 0
  }

  ghost predicate AllClosed(h: seq<Record>) {
    forall i :: 0 <= i < |h| ==> h[i].result.Some?
  }

  lemma {:induction false} OpenHead(h: seq<Record>, call: Call)
    requires h != []
    ensures OpenCount(h[1..], call) <= OpenCount(h, call)
    decreases |h|
  {
    if |h| > 1 {
      OpenHead(h[..|h| - 1], call);
      assert h[..|h| - 1][1..] == h[1..][..|h| - 2];
    }
  }

  lemma {:induction false} OpenAt(h: seq<Record>, i: nat)
    requires i < |h| && h[i].result.None?
    ensures OpenCount(h, h[i].call) > 0
    decreases |h|
  {
    if i < |h| - 1 {
      OpenAt(h[..|h| - 1], i);
    }
  }

  lemma {:induction false} ClosedCount(h: seq<Record>, call: Call)
    requires AllClosed(h)
    ensures OpenCount(h, call) == 0
    decreases |h|
  {
    if h != [] {
      ClosedCount(h[..|h| - 1], call);
    }
  }

  /** Recording an outcome closes one open record of that call if there is one. */
  lemma {:induction false} OpenClose(h: seq<Record>, call: Call, output: string, other: Call)
    ensures OpenCount(Close(h, call, output), other)
         == OpenCount(h, other) - if call == other && OpenCount(h, call) > 0 then 1 else 0
    decreases |h|
  {
    if h != [] {
      var r := h[|h| - 1];
      OpenClose(h[..|h| - 1], call, output, other);
      if r.call == call && r.result.None? {
        var g := h[..|h| - 1] + [Record(call, Some(output))];
        assert g[..|h| - 1] == h[..|h| - 1];
      } else {
        var g := Close(h[..|h| - 1], call, output);
        assert (g + [r])[..|g|] == g;
      }
    }
  }

  lemma {:induction false} OpenPush(cfg: Config, h: seq<Record>, call: Call, other: Call)
    ensures OpenCount(Push(cfg, h, call), other) <= OpenCount(h, other) + if call == other then 1 else 0
  {
    var longer := h + [Record(call, None)];
    assert longer[..|h|] == h;
    OpenHead(longer, other);
  }

  lemma {:induction false} OccurrencesSnoc<T>(s: seq<T>, x: T, y: T)
    ensures Occurrences(s + [x], y) == Occurrences(s, y) + if x == y then 1 else 0
  {
    assert (s + [x])[..|s|] == s;
  }

  /** A batch opens at most as many records of a call as calls of it may run. */
  lemma {:induction false} OpenAttempts(cfg: Config, h: seq<Record>, calls: seq<Call>, call: Call)
    ensures OpenCount(Attempts(cfg, h, calls), call)
         <= OpenCount(h, call) + Occurrences(Allowed(cfg, h, calls), call)
    decreases |calls|
  {
    if calls != [] {
      var k := |calls| - 1;
      OpenAttempts(cfg, h, calls[..k], call);
      if !VerdictAt(cfg, h, calls, k).Block? {
        OpenPush(cfg, Attempts(cfg, h, calls[..k]), calls[k], call);
        OccurrencesSnoc(Allowed(cfg, h, calls[..k]), calls[k], call);
      }
    }
  }

  lemma {:induction false} OpenOutcomes(h: seq<Record>, ran: seq<Call>, outputs: nat -> string, call: Call)
    ensures OpenCount(Outcomes(h, ran, outputs), call)
         == if OpenCount(h, call) <= Occurrences(ran, call) then 0 else OpenCount(h, call) - Occurrences(ran, call)
    decreases |ran|
  {
    if ran != [] {
      var k := |ran| - 1;
      OpenOutcomes(h, ran[..k], outputs, call);
      OpenClose(Outcomes(h, ran[..k], outputs), ran[k], outputs(k), call);
    }
  }

  /** A round that starts with every record closed ends so, whatever calls it repeats and
      however far it overruns the window. */
  lemma {:induction false} RoundClosesAll(cfg: Config, h: seq<Record>, round: Round)
    requires AllClosed(h)
    ensures AllClosed(AfterRound(cfg, h, round))
  {
    var g := AfterRound(cfg, h, round);
    forall i | 0 <= i < |g| ensures g[i].result.Some? {
      var call := g[i].call;
      ClosedCount(h, call);
      OpenAttempts(cfg, h, round.calls, call);
      OpenOutcomes(Attempts(cfg, h, round.calls), Allowed(cfg, h, round.calls), round.outputs, call);
      if g[i].result.None? {
        OpenAt(g, i);
      }
    }
  }

  /** At every round boundary of every run each record in the window has its result. */
  lemma {:induction false} RoundBoundariesClosed(cfg: Config, rounds: seq<Round>)
    ensures AllClosed(AfterRounds(cfg, rounds))
    decreases |rounds|
  {
    if rounds != [] {
      var k := |rounds| - 1;
      RoundBoundariesClosed(cfg, rounds[..k]);
      RoundClosesAll(cfg, AfterRounds(cfg, rounds[..k]), rounds[k]);
    }
  }
}
