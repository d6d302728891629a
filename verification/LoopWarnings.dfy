/** What a verdict of the loop detector means (crates/openclaw-agent/src/loop_detection.rs:91-196):
    what the counts count, when a call is allowed without a word, and which warnings
    repeated and alternating calls draw before they are blocked. */
module LoopWarnings {
  import opened Common
  import opened LoopDetection
  import opened LoopOutcomes
  import opened LoopVerdicts

  // ----- What is counted -----

  /** The identical count is the number of records of the call. */
  lemma {:induction false} CountIsRecords(h: seq<Record>, call: Call)
    ensures IdenticalCount(h, call) == |set i | 0 <= i < |h| && h[i].call == call|
    decreases |h|
  {
    if h != [] {
      var k := |h| - 1;
      var earlier := set i | 0 <= i < k && h[..k][i].call == call;
      CountIsRecords(h[..k], call);
      assert (set i | 0 <= i < |h| && h[i].call == call) == if h[k].call == call then earlier + {k} else earlier;
    }
  }

  /** The run of x at the end of s: as many places as it counts, and not one more. */
  lemma {:induction false} RunIsLongest(s: seq<string>, x: string)
    ensures var n := RunOf(s, x);
            && n <= |s| && (forall i :: |s| - n <= i < |s| ==> s[i] == x)
            && (n < |s| ==> s[|s| - n - 1] != x)
    decreases |s|
  {
    if s != [] && s[|s| - 1] == x {
      RunIsLongest(s[..|s| - 1], x);
    }
  }

  /** The results of a call are those of its closed records, oldest first. */
  lemma {:induction false} ResultsAreRecords(h: seq<Record>, call: Call) returns (places: seq<nat>)
    ensures forall i, j :: 0 <= i < j < |places| ==> places[i] < places[j]
    ensures forall i :: 0 <= i < |places| ==> places[i] < |h| && h[places[i]].result.Some?
    ensures forall p: nat :: p in places <==> p < |h| && h[p].call == call && h[p].result.Some?
    ensures |Results(h, call)| == |places|
    ensures forall i :: 0 <= i < |places| ==> Results(h, call)[i] == h[places[i]].result.value
    decreases |h|
  {
    if h == [] {
      places := [];
    } else {
      var k := |h| - 1;
      places := ResultsAreRecords(h[..k], call);
      if h[k].call == call && h[k].result.Some? {
        places := places + [k];
      }
    }
  }

  /** The call at place p of an alternation that reads x, y, x, ... backwards from the end. */
  function Expected(h: seq<Record>, x: Call, y: Call, p: int): Call {
    if (|h| - 1 - p) % 2 == 0 then x else y
  }

  /** The alternating run: its places read x, y, x, ... backwards, and not one more does. */
  lemma {:induction false} AlternationIsLongest(h: seq<Record>, x: Call, y: Call)
    ensures var n := AltRun(h, x, y);
            && n <= |h| && (forall p :: |h| - n <= p < |h| ==> h[p].call == Expected(h, x, y, p))
            && (n < |h| ==> h[|h| - n - 1].call != Expected(h, x, y, |h| - n - 1))
    decreases |h|
  {
    if h != [] && h[|h| - 1].call == x {
      var k := |h| - 1;
      AlternationIsLongest(h[..k], y, x);
      forall p | 0 <= p < k ensures Expected(h, x, y, p) == Expected(h[..k], y, x, p) {
        assert (k - p) % 2 != (k - 1 - p) % 2;
      }
    }
  }

  /** The other call is the latest one that differs. */
  lemma {:induction false} OtherIsLatest(h: seq<Record>, last: Call)
    ensures OtherCall(h, last) == None <==> forall i :: 0 <= i < |h| ==> h[i].call == last
    ensures OtherCall(h, last).Some? ==>
              exists i :: 0 <= i < |h| && h[i].call == OtherCall(h, last).value
                          && forall j :: i < j < |h| ==> h[j].call == last
    decreases |h|
  {
    if h != [] {
      var k := |h| - 1;
      OtherIsLatest(h[..k], last);
      if h[k].call == last && OtherCall(h[..k], last).Some? {
        var i :| 0 <= i < k && h[..k][i].call == OtherCall(h, last).value
                 && forall j :: i < j < k ==> h[..k][j].call == last;
        assert h[i].call == OtherCall(h, last).value && forall j :: i < j < k ==> h[j].call == h[..k][j].call;
      }
    }
  }

  // ----- What a verdict says -----

  /** A call is allowed without a word exactly when none of its counts reaches a threshold. */
  lemma {:induction false} AllowedIff(cfg: Config, h: seq<Record>, call: Call)
    ensures Judge(cfg, h, call).Allow?
       <==> (&& Streak(h, call) < cfg.circuitBreaker
             && Streak(h, call) < Min(cfg.warning, cfg.critical)
             && IdenticalCount(h, call) < Min(cfg.warning, cfg.critical)
             && PingPongCount(h, call) < Min(cfg.warning, cfg.critical))
  {
  }

  /** A verdict reports the count of its own detector, and that count reaches the threshold. */
  lemma {:induction false} ReportsItsCount(cfg: Config, h: seq<Record>, call: Call)
    ensures var v := Judge(cfg, h, call);
            !v.Allow? ==>
              && v.count == (match v.detector
                             case CircuitBreaker => Streak(h, call)
                             case GenericRepeat => IdenticalCount(h, call)
                             case NoProgress => Streak(h, call)
                             case PingPong => PingPongCount(h, call))
              && (v.Warn? ==> cfg.warning <= v.count < cfg.critical && !v.detector.CircuitBreaker?)
              && (v.Block? ==> v.count >= if v.detector.CircuitBreaker? then cfg.circuitBreaker else cfg.critical)
  {
  }

  lemma {:induction false} NoPingPongAlone(h: seq<Record>, call: Call)
    requires forall i :: 0 <= i < |h| ==> h[i].call == call
    ensures PingPongCount(h, call) == 0 && IdenticalCount(h, call) == |h|
    ensures OtherCall(h, call) == None
    decreases |h|
  {
    if h != [] {
      NoPingPongAlone(h[..|h| - 1], call);
      assert h[|h| - 1].call == call;
    }
  }

  /** n equal results in a row draw a no-progress warning. */
  lemma {:induction false} EqualResultsWarned(cfg: Config, call: Call, output: string, n: nat)
    requires 0 < n && cfg.warning <= n < Min(cfg.critical, cfg.circuitBreaker)
    ensures Judge(cfg, Copies(Record(call, Some(output)), n), call) == Warn(NoProgress, n)
  {
    var h := Copies(Record(call, Some(output)), n);
    ClosedStreak(call, output, n);
    assert Copies(output, n)[n - 1] == output;
    NoPingPongAlone(h, call);
  }

  /** n open calls, or n calls of which the last two had different results, draw a warning
      about the repetition. */
  lemma {:induction false} RepeatsWarned(cfg: Config, h: seq<Record>, call: Call)
    requires (forall i :: 0 <= i < |h| ==> h[i].call == call) && Streak(h, call) < cfg.warning
    requires Streak(h, call) < cfg.circuitBreaker && cfg.warning <= |h| < cfg.critical
    ensures Judge(cfg, h, call) == Warn(GenericRepeat, |h|)
  {
    NoPingPongAlone(h, call);
  }

  lemma {:induction false} OpenRepeatsWarned(cfg: Config, call: Call, n: nat)
    requires 1 <= cfg.warning <= n < cfg.critical && cfg.circuitBreaker >= 1
    ensures Judge(cfg, Copies(Record(call, None), n), call) == Warn(GenericRepeat, n)
  {
    CopiesScans(call, n);
    RepeatsWarned(cfg, Copies(Record(call, None), n), call);
  }

  lemma {:induction false} DifferentResultsWarned(cfg: Config, call: Call, outputs: seq<string>)
    requires 2 <= cfg.warning <= |outputs| < cfg.critical && cfg.circuitBreaker >= 2
    requires outputs[|outputs| - 1] != outputs[|outputs| - 2]
    ensures Judge(cfg, ClosedRecords(call, outputs), call) == Warn(GenericRepeat, |outputs|)
  {
    ClosedResults(call, outputs);
    RunIsLongest(outputs, outputs[|outputs| - 1]);
    assert Streak(ClosedRecords(call, outputs), call) == 1;
    RepeatsWarned(cfg, ClosedRecords(call, outputs), call);
  }

  function ClosedRecords(call: Call, outputs: seq<string>): seq<Record> {
    seq(|outputs|, i requires 0 <= i < |outputs| => Record(call, Some(outputs[i])))
  }

  lemma {:induction false} ClosedResults(call: Call, outputs: seq<string>)
    ensures Results(ClosedRecords(call, outputs), call) == outputs
    decreases |outputs|
  {
    if outputs != [] {
      var k := |outputs| - 1;
      ClosedResults(call, outputs[..k]);
      assert ClosedRecords(call, outputs)[..k] == ClosedRecords(call, outputs[..k]);
      assert outputs == outputs[..k] + [outputs[k]];
    }
  }

  /** An alternation of n calls draws a ping-pong warning on the call that continues it, as
      long as that call itself has not been made too often. */
  lemma {:induction false} AlternationWarned(cfg: Config, a: Call, b: Call, n: nat)
    requires a != b && 4 <= n && n / 2 < cfg.warning <= n < cfg.critical && cfg.circuitBreaker >= 1
    ensures Judge(cfg, OpenRecords(Alternating(a, b, n)), if n % 2 == 0 then a else b) == Warn(PingPong, n)
  {
    AlternatingScans(a, b, n);
    var h := OpenRecords(Alternating(a, b, n));
    assert |h| == n && AltTail(h) == n;
    assert PingPongCount(h, if n % 2 == 0 then a else b) == n;
  }

  /** The default thresholds: from the eighth repetition on a call is warned about. */
  lemma {:induction false} DefaultWarnings(call: Call, output: string)
    ensures Judge(DEFAULT_CONFIG, Copies(Record(call, Some(output)), 7), call) == Allow
    ensures Judge(DEFAULT_CONFIG, Copies(Record(call, Some(output)), 8), call) == Warn(NoProgress, 8)
  {
    var h := Copies(Record(call, Some(output)), 7);
    ClosedStreak(call, output, 7);
    assert Copies(output, 7)[6] == output;
    NoPingPongAlone(h, call);
    EqualResultsWarned(DEFAULT_CONFIG, call, output, 8);
  }
}
