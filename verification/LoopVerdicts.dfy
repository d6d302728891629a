/** Which of the four blocking detectors can fire at all in a turn, exactly, for every
    configuration. Two of the four answers differ from what the source documents: the
    global circuit breaker is dead under the default thresholds, and the critical
    no-progress check is dead under every configuration. */
module LoopVerdicts {
  import opened Common
  import opened LoopDetection
  import opened LoopOutcomes
  import opened LoopRuns

  /** Some turn has a call blocked by this detector: after fewer than MAX_TOOL_ROUNDS
      complete rounds, and after the calls `before` of the current batch. */
  ghost predicate Occurs(cfg: Config, detector: Detector) {
    exists rounds: seq<Round>, before: seq<Call>, call: Call ::
      OccursAt(cfg, detector, rounds, before, call)
  }

  predicate OccursAt(cfg: Config, detector: Detector, rounds: seq<Round>, before: seq<Call>, call: Call) {
    && |rounds| < MAX_TOOL_ROUNDS
    && var v := Judge(cfg, Attempts(cfg, AfterRounds(cfg, rounds), before), call);
       v.Block? && v.detector == detector
  }

  // ----- Facts about windows of equal and of alternating records -----

  lemma {:induction false} CopiesScans(call: Call, n: nat)
    ensures var h := Copies(Record(call, None), n);
            && IdenticalCount(h, call) == n
            && Results(h, call) == []
            && OtherCall(h, call) == None
    decreases n
  {
    if n > 0 {
      CopiesScans(call, n - 1);
      assert Copies(Record(call, None), n)[..n - 1] == Copies(Record(call, None), n - 1);
    }
  }

  lemma {:induction false} RepeatNotBlocked(cfg: Config, call: Call, n: nat)
    requires n < cfg.critical && cfg.circuitBreaker >= 1
    ensures !Judge(cfg, Copies(Record(call, None), n), call).Block?
  {
    var h := Copies(Record(call, None), n);
    CopiesScans(call, n);
    assert Streak(h, call) == 0;
    assert n > 0 ==> h[|h| - 1].call == call;
    assert PingPongCount(h, call) == 0;
  }

  lemma {:induction false} CopiesSnoc<T>(x: T, n: nat)
    ensures Copies(x, n + 1)[..n] == Copies(x, n)
    ensures Copies(x, n) + [x] == Copies(x, n + 1)
  {
  }

  /** Below every threshold and within the window, repeating a call is never blocked. */
  lemma {:induction false} RepeatsAllowed(cfg: Config, call: Call, n: nat)
    requires n <= cfg.critical && n <= cfg.historySize && cfg.circuitBreaker >= 1
    ensures Attempts(cfg, [], Copies(call, n)) == Copies(Record(call, None), n)
    ensures Allowed(cfg, [], Copies(call, n)) == Copies(call, n)
    decreases n
  {
    if n > 0 {
      CopiesSnoc(call, n - 1);
      CopiesSnoc(Record(call, None), n - 1);
      RepeatsAllowed(cfg, call, n - 1);
      RepeatNotBlocked(cfg, call, n - 1);
    }
  }

  lemma {:induction false} ClosedStreak(call: Call, output: string, n: nat)
    ensures Results(Copies(Record(call, Some(output)), n), call) == Copies(output, n)
    ensures RunOf(Copies(output, n), output) == n
    decreases n
  {
    if n > 0 {
      ClosedStreak(call, output, n - 1);
      assert Copies(Record(call, Some(output)), n)[..n - 1] == Copies(Record(call, Some(output)), n - 1);
      assert Copies(output, n)[..n - 1] == Copies(output, n - 1);
      assert Copies(output, n - 1) + [output] == Copies(output, n);
    }
  }

  // ----- Circuit breaker -----

  /** A round of n equal calls with equal outputs leaves n equal closed records. */
  lemma {:induction false} RepeatedRound(cfg: Config, call: Call, n: nat)
    requires n <= cfg.critical && n <= cfg.historySize && cfg.circuitBreaker >= 1
    ensures AfterRounds(cfg, [Round(Copies(call, n), _ => "")]) == Copies(Record(call, Some("")), n)
  {
    var round := Round(Copies(call, n), _ => "");
    RepeatsAllowed(cfg, call, n);
    var closed := Outcomes(Copies(Record(call, None), n), Copies(call, n), _ => "");
    if n > 0 {
      CloseFromEnd(call, n, _ => "", 0);
    }
    forall j | 0 <= j < n ensures closed[j] == Record(call, Some("")) {
      CloseFromEnd(call, n, _ => "", j);
    }
    assert closed == Copies(Record(call, Some("")), n);
    assert [round][..0] == [];
    assert AfterRounds(cfg, [round]) == AfterRound(cfg, [], round);
  }

  lemma {:induction false} OccursBetweenRounds(cfg: Config, detector: Detector, rounds: seq<Round>, call: Call)
    requires |rounds| < MAX_TOOL_ROUNDS
    requires var v := Judge(cfg, AfterRounds(cfg, rounds), call); v.Block? && v.detector == detector
    ensures Occurs(cfg, detector)
  {
    assert Attempts(cfg, AfterRounds(cfg, rounds), []) == AfterRounds(cfg, rounds);
    assert OccursAt(cfg, detector, rounds, [], call);
  }

  lemma {:induction false} CircuitBreakerWitness(cfg: Config)
    requires cfg.circuitBreaker <= cfg.critical && cfg.circuitBreaker <= cfg.historySize
    ensures Occurs(cfg, CircuitBreaker)
  {
    var call := Call("exec", "{}");
    var n := cfg.circuitBreaker;
    if n == 0 {
      OccursBetweenRounds(cfg, CircuitBreaker, [], call);
    } else {
      var h := Copies(Record(call, Some("")), n);
      RepeatedRound(cfg, call, n);
      ClosedStreak(call, "", n);
      assert Copies("", n) != [] && Copies("", n)[n - 1] == "";
      assert Streak(h, call) == n;
      OccursBetweenRounds(cfg, CircuitBreaker, [Round(Copies(call, n), _ => "")], call);
    }
  }

  /** The circuit breaker can fire iff its threshold is within both the critical threshold
      and the window; otherwise the critical repeat check always blocks first. */
  lemma {:induction false} CircuitBreakerOccursIff(cfg: Config)
    ensures Occurs(cfg, CircuitBreaker) <==> cfg.circuitBreaker <= cfg.critical && cfg.circuitBreaker <= cfg.historySize
  {
    if Occurs(cfg, CircuitBreaker) {
      var rounds: seq<Round>, before: seq<Call>, call: Call :| OccursAt(cfg, CircuitBreaker, rounds, before, call);
      var h := Attempts(cfg, AfterRounds(cfg, rounds), before);
      RunsAreBounded(cfg, rounds, before);
      StreakAtMostCount(h, call);
      CountAtMostLength(h, call);
    }
    if cfg.circuitBreaker <= cfg.critical && cfg.circuitBreaker <= cfg.historySize {
      CircuitBreakerWitness(cfg);
    }
  }

  // ----- A streak in the wrong order -----

  function AAB(i: nat): string {
    if i < 2 then "A" else "B"
  }

  /** Three equal calls return A, A, B. The window holds B, A, A, so the detector counts two
      equal results in a row, although the latest result is new and the streak should be 1. */
  lemma {:induction false} WrongStreak(call: Call)
    ensures var h := AfterRounds(DEFAULT_CONFIG, [Round(Copies(call, 3), AAB)]);
            Results(h, call) == ["B", "A", "A"] && Streak(h, call) == 2
    ensures RunOf([AAB(0), AAB(1), AAB(2)], AAB(2)) == 1
  {
    var round := Round(Copies(call, 3), AAB);
    RepeatsAllowed(DEFAULT_CONFIG, call, 3);
    assert [round][..0] == [];
    assert AfterRounds(DEFAULT_CONFIG, [round]) == AfterRound(DEFAULT_CONFIG, [], round);
    ThreeInReverse(call);
    RunSnoc(["B", "A"], "A", "A");
    RunSnoc(["B"], "A", "A");
    RunSnoc([], "B", "A");
    RunSnoc(["A", "A"], "B", "B");
    RunSnoc(["A"], "A", "B");
    assert ["B", "A"] + ["A"] == ["B", "A", "A"] && ["A", "A"] + ["B"] == ["A", "A", "B"];
    assert ["B"] + ["A"] == ["B", "A"] && [] + ["B"] == ["B"];
  }

  lemma {:induction false} ThreeInReverse(call: Call)
    ensures Results(Outcomes(Copies(Record(call, None), 3), Copies(call, 3), AAB), call) == ["B", "A", "A"]
  {
    var a, b := Record(call, Some("A")), Record(call, Some("B"));
    var h := Outcomes(Copies(Record(call, None), 3), Copies(call, 3), AAB);
    CloseFromEnd(call, 3, AAB, 0);
    CloseFromEnd(call, 3, AAB, 1);
    CloseFromEnd(call, 3, AAB, 2);
    assert h == [] + [b] + [a] + [a];
    OneMoreResult([], call, "B");
    OneMoreResult([] + [b], call, "A");
    OneMoreResult([] + [b] + [a], call, "A");
  }

  lemma {:induction false} OneMoreResult(h: seq<Record>, call: Call, output: string)
    ensures Results(h + [Record(call, Some(output))], call) == Results(h, call) + [output]
  {
    assert (h + [Record(call, Some(output))])[..|h|] == h;
  }

  lemma {:induction false} RunSnoc(s: seq<string>, y: string, x: string)
    ensures RunOf(s + [y], x) == if y == x then 1 + RunOf(s, x) else 0
  {
    assert (s + [y])[..|s|] == s;
  }

  // ----- Repeated calls and repeated results -----

  lemma {:induction false} GenericRepeatWitness(cfg: Config)
    requires cfg.circuitBreaker >= 1 && cfg.critical <= cfg.historySize
    ensures Occurs(cfg, GenericRepeat)
  {
    var call := Call("exec", "{}");
    var h := Copies(Record(call, None), cfg.critical);
    RepeatsAllowed(cfg, call, cfg.critical);
    CopiesScans(call, cfg.critical);
    assert Streak(h, call) == 0;
    assert Judge(cfg, h, call) == Block(GenericRepeat, cfg.critical);
    assert AfterRounds(cfg, []) == [];
    assert OccursAt(cfg, GenericRepeat, [], Copies(call, cfg.critical), call);
  }

  /** The repeat check can fire iff the critical threshold fits in the window (and the
      circuit breaker is not set to 0, which blocks every call). */
  lemma {:induction false} GenericRepeatOccursIff(cfg: Config)
    ensures Occurs(cfg, GenericRepeat) <==> cfg.circuitBreaker >= 1 && cfg.critical <= cfg.historySize
  {
    if Occurs(cfg, GenericRepeat) {
      var rounds: seq<Round>, before: seq<Call>, call: Call :| OccursAt(cfg, GenericRepeat, rounds, before, call);
      RunsAreBounded(cfg, rounds, before);
      CountAtMostLength(Attempts(cfg, AfterRounds(cfg, rounds), before), call);
    }
    if cfg.circuitBreaker >= 1 && cfg.critical <= cfg.historySize {
      GenericRepeatWitness(cfg);
    }
  }

  /** No window whatsoever makes the critical no-progress check fire: the repeat check in
      front of it counts at least as many calls. */
  lemma {:induction false} NoProgressNeverBlocks(cfg: Config, h: seq<Record>, call: Call)
    ensures var v := Judge(cfg, h, call); !(v.Block? && v.detector == NoProgress)
  {
    StreakAtMostCount(h, call);
  }

  // ----- Ping-pong -----

  /** n calls a, b, a, b, ... */
  function Alternating(a: Call, b: Call, n: nat): seq<Call> {
    seq(n, i => if i % 2 == 0 then a else b)
  }

  lemma {:induction false} AlternatingScans(a: Call, b: Call, n: nat)
    requires a != b
    ensures var h := OpenRecords(Alternating(a, b, n));
            && IdenticalCount(h, a) == (n + 1) / 2
            && IdenticalCount(h, b) == n / 2
            && Results(h, a) == [] && Results(h, b) == []
            && (n % 2 == 0 ==> AltRun(h, b, a) == n)
            && (n % 2 == 1 ==> AltRun(h, a, b) == n)
            && (n >= 2 ==> OtherCall(h, if n % 2 == 0 then b else a) == Some(if n % 2 == 0 then a else b))
    decreases n
  {
    if n > 0 {
      AlternatingScans(a, b, n - 1);
      var h := OpenRecords(Alternating(a, b, n));
      assert h[..n - 1] == OpenRecords(Alternating(a, b, n - 1));
    }
  }

  /** The next call of an alternation of n < 4 or n < critical calls is not blocked. */
  lemma {:induction false} AlternatingNextAllowed(cfg: Config, a: Call, b: Call, n: nat)
    requires a != b && cfg.critical >= 3 && cfg.circuitBreaker >= 1 && n < Max(cfg.critical, 4)
    ensures !Judge(cfg, OpenRecords(Alternating(a, b, n)), if n % 2 == 0 then a else b).Block?
  {
    AlternatingScans(a, b, n);
    var h := OpenRecords(Alternating(a, b, n));
    assert |h| == n;
    if n >= 4 {
      assert AltTail(h) == n;
    }
  }

  lemma {:induction false} AlternationAllowed(cfg: Config, a: Call, b: Call, n: nat)
    requires a != b && cfg.critical >= 3 && cfg.circuitBreaker >= 1
    requires n <= Max(cfg.critical, 4) <= cfg.historySize
    ensures Attempts(cfg, [], Alternating(a, b, n)) == OpenRecords(Alternating(a, b, n))
    decreases n
  {
    if n > 0 {
      var calls := Alternating(a, b, n);
      assert calls[..n - 1] == Alternating(a, b, n - 1);
      AlternationAllowed(cfg, a, b, n - 1);
      AlternatingNextAllowed(cfg, a, b, n - 1);
      assert OpenRecords(Alternating(a, b, n - 1)) + [Record(calls[n - 1], None)] == OpenRecords(calls);
    }
  }

  lemma {:induction false} PingPongWitness(cfg: Config)
    requires cfg.critical >= 3 && cfg.circuitBreaker >= 1 && Max(cfg.critical, 4) <= cfg.historySize
    ensures Occurs(cfg, PingPong)
  {
    var a, b := Call("read", "{}"), Call("write", "{}");
    assert a != b by { assert "read"[0] != "write"[0]; }
    var n := Max(cfg.critical, 4);
    AlternationAllowed(cfg, a, b, n);
    AlternatingScans(a, b, n);
    var h := OpenRecords(Alternating(a, b, n));
    var next := if n % 2 == 0 then a else b;
    assert AltTail(h) == n;
    assert PingPongCount(h, next) == n;
    assert OccursAt(cfg, PingPong, [], Alternating(a, b, n), next);
  }

  /** An alternating tail of 4 holds the detector's second call twice. */
  lemma {:induction false} AltTailCounts(h: seq<Record>, call: Call)
    requires PingPongCount(h, call) >= 4
    ensures IdenticalCount(h, call) >= 2
  {
    var n := |h|;
    var last := h[n - 1].call;
    assert AltRun(h, last, call) >= 4;
    assert AltRun(h[..n - 1], call, last) >= 3;
    assert h[..n - 1][..n - 2] == h[..n - 2];
    assert AltRun(h[..n - 2], last, call) >= 2;
    assert h[..n - 2][..n - 3] == h[..n - 3];
    assert AltRun(h[..n - 3], call, last) >= 1;
    assert h[..n - 3][..n - 4] == h[..n - 4];
    assert IdenticalCount(h[..n - 3], call) >= 1;
    assert IdenticalCount(h[..n - 1], call) >= 2;
  }

  /** The ping-pong check can fire iff the critical threshold is at least 3 (below, the
      repeat check blocks both calls first) and the alternation fits in the window. */
  lemma {:induction false} PingPongOccursIff(cfg: Config)
    ensures Occurs(cfg, PingPong) <==>
            cfg.critical >= 3 && cfg.circuitBreaker >= 1 && Max(cfg.critical, 4) <= cfg.historySize
  {
    if Occurs(cfg, PingPong) {
      var rounds: seq<Round>, before: seq<Call>, call: Call :| OccursAt(cfg, PingPong, rounds, before, call);
      var h := Attempts(cfg, AfterRounds(cfg, rounds), before);
      RunsAreBounded(cfg, rounds, before);
      assert PingPongCount(h, call) >= 4;
      AltTailCounts(h, call);
      AltTailEviction(h);
    }
    if cfg.critical >= 3 && cfg.circuitBreaker >= 1 && Max(cfg.critical, 4) <= cfg.historySize {
      PingPongWitness(cfg);
    }
  }

  /** Under the default thresholds exactly the repeat and the ping-pong check can block. */
  lemma {:induction false} DefaultDetectors()
    ensures !Occurs(DEFAULT_CONFIG, CircuitBreaker)
    ensures !Occurs(DEFAULT_CONFIG, NoProgress)
    ensures Occurs(DEFAULT_CONFIG, GenericRepeat)
    ensures Occurs(DEFAULT_CONFIG, PingPong)
  {
    CircuitBreakerOccursIff(DEFAULT_CONFIG);
    GenericRepeatOccursIff(DEFAULT_CONFIG);
    PingPongOccursIff(DEFAULT_CONFIG);
    if Occurs(DEFAULT_CONFIG, NoProgress) {
      var rounds: seq<Round>, before: seq<Call>, call: Call :|
        OccursAt(DEFAULT_CONFIG, NoProgress, rounds, before, call);
      var h := Attempts(DEFAULT_CONFIG, AfterRounds(DEFAULT_CONFIG, rounds), before);
      NoProgressNeverBlocks(DEFAULT_CONFIG, h, call);
    }
  }
}
