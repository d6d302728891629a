/** crates/openclaw-agent/src/loop_detection.rs: a sliding window of recent tool calls
    that decides, for every call, whether it may run.

    The source keeps 64-bit hashes of arguments, results and call signatures; the model
    keeps the hashed texts themselves, which is the source with injective hashes. */
module LoopDetection {
  import opened Common

  datatype Config = Config(
    historySize: nat,
    warning: nat,
    critical: nat,
    circuitBreaker: nat
  )

  const DEFAULT_CONFIG := Config(30, 8, 15, 25)

  /** A call signature: the tool and the canonical text of its arguments. */
  datatype Call = Call(name: string, args: string)

  datatype Record = Record(call: Call, result: Option<string>)

  datatype Detector = CircuitBreaker | GenericRepeat | NoProgress | PingPong

  datatype Verdict =
    | Allow
    | Warn(detector: Detector, count: nat)
    | Block(detector: Detector, count: nat)

  // ----- What the scans of the window compute -----

  function IdenticalCount(h: seq<Record>, call: Call): nat {
    if h == [] then 0
    else IdenticalCount(h[..|h| - 1], call) + if h[|h| - 1].call == call then 1 else 0
  }

  /** The recorded results of a call, oldest first. */
  function Results(h: seq<Record>, call: Call): seq<string> {
    if h == [] then []
    else
      var r := h[|h| - 1];
      if r.call == call && r.result.Some? then Results(h[..|h| - 1], call) + [r.result.value]
      else Results(h[..|h| - 1], call)
  }

  /** Length of the run of x at the end of s. */
  function RunOf(s: seq<string>, x: string): nat {
    if s != [] && s[|s| - 1] == x then 1 + RunOf(s[..|s| - 1], x) else 0
  }

  /** No-progress streak: how often the latest result of a call has just been repeated. */
  function Streak(h: seq<Record>, call: Call): nat {
    var rs := Results(h, call);
    if rs == [] then 0 else RunOf(rs, rs[|rs| - 1])
  }

  /** The most recent call different from `last`. */
  function OtherCall(h: seq<Record>, last: Call): (other: Option<Call>)
    ensures other.Some? ==> other.value != last
  {
    if h == [] then None
    else if h[|h| - 1].call != last then Some(h[|h| - 1].call)
    else OtherCall(h[..|h| - 1], last)
  }

  /** Length of the longest tail of h that reads x, y, x, y, ... backwards. */
  function AltRun(h: seq<Record>, x: Call, y: Call): nat {
    if h != [] && h[|h| - 1].call == x then 1 + AltRun(h[..|h| - 1], y, x) else 0
  }

  /** Length of the alternating tail of h; 0 when h shows fewer than two different calls. */
  function AltTail(h: seq<Record>): nat {
    if h == [] then 0
    else
      var last := h[|h| - 1].call;
      match OtherCall(h, last)
      case None => 0
      case Some(other) => AltRun(h, last, other)
  }

  function PingPongCount(h: seq<Record>, call: Call): nat {
    if |h| >= 4 && AltTail(h) >= 4 && OtherCall(h, h[|h| - 1].call) == Some(call) then AltTail(h) else 0
  }

  // ----- The verdict and the two updates of the window -----

  function Judge(cfg: Config, h: seq<Record>, call: Call): Verdict {
    var identical := IdenticalCount(h, call);
    var streak := Streak(h, call);
    var pingPong := PingPongCount(h, call);
    if streak >= cfg.circuitBreaker then Block(CircuitBreaker, streak)
    else if identical >= cfg.critical then Block(GenericRepeat, identical)
    else if streak >= cfg.critical then Block(NoProgress, streak)
    else if pingPong >= cfg.critical then Block(PingPong, pingPong)
    else if streak >= cfg.warning then Warn(NoProgress, streak)
    else if identical >= cfg.warning then Warn(GenericRepeat, identical)
    else if pingPong >= cfg.warning then Warn(PingPong, pingPong)
    else Allow
  }

  /** The window after a new, still open record. */
  function Push(cfg: Config, h: seq<Record>, call: Call): seq<Record> {
    var longer := h + [Record(call, None)];
    if |longer| > cfg.historySize then longer[1..] else longer
  }

  /** The window after the most recent open record of a call received its result. */
  function Close(h: seq<Record>, call: Call, output: string): seq<Record> {
    if h == [] then []
    else
      var r := h[|h| - 1];
      if r.call == call && r.result.None? then h[..|h| - 1] + [Record(call, Some(output))]
      else Close(h[..|h| - 1], call, output) + [r]
  }

  /** A closed record of a call is the latest of its results. */
  lemma {:induction false} ResultsSnoc(h: seq<Record>, call: Call)
    requires h != [] && h[|h| - 1].call == call && h[|h| - 1].result.Some?
    ensures var rs := Results(h, call);
            && rs != [] && rs[|rs| - 1] == h[|h| - 1].result.value
            && rs[..|rs| - 1] == Results(h[..|h| - 1], call)
  {
  }

  // ----- The detector object -----

  class LoopDetector {
    const config: Config
    var history: seq<Record>
    var blockedCount: nat

    constructor (config: Config)
      ensures this.config == config && history == [] && blockedCount == 0
    {
      this.config := config;
      history := [];
      blockedCount := 0;
    }

    method Check(call: Call) returns (v: Verdict)
      ensures v == Judge(config, history, call)
    {
      var identical := CountIdentical(call);
      var streak := NoProgressStreak(call);
      if streak >= config.circuitBreaker {
        return Block(CircuitBreaker, streak);
      }
      if identical >= config.critical {
        return Block(GenericRepeat, identical);
      }
      if streak >= config.critical {
        return Block(NoProgress, streak);
      }
      var pingPong := DetectPingPong(call);
      if pingPong >= config.critical {
        return Block(PingPong, pingPong);
      }
      if streak >= config.warning {
        return Warn(NoProgress, streak);
      }
      if identical >= config.warning {
        return Warn(GenericRepeat, identical);
      }
      if pingPong >= config.warning {
        return Warn(PingPong, pingPong);
      }
      return Allow;
    }

    method CountIdentical(call: Call) returns (n: nat)
      ensures n == IdenticalCount(history, call)
    {
      n := 0;
      for i := 0 to |history|
        invariant n == IdenticalCount(history[..i], call)
      {
        assert history[..i + 1][..i] == history[..i];
        if history[i].call == call {
          n := n + 1;
        }
      }
      assert history[..|history|] == history;
    }

    method RecordCall(call: Call)
      modifies this`history
      ensures history == Push(config, old(history), call)
    {
      history := history + [Record(call, None)];
      if |history| > config.historySize {
        history := history[1..];
      }
    }

    method RecordOutcome(call: Call, output: string)
      modifies this`history
      ensures history == Close(old(history), call, output)
    {
      var i := |history|;
      assert history[..i] == history;
      while i > 0
        invariant 0 <= i <= |history|
        invariant history == old(history)
        invariant Close(history, call, output) == Close(history[..i], call, output) + history[i..]
      {
        i := i - 1;
        assert history[..i + 1][..i] == history[..i];
        assert [history[i]] + history[i + 1..] == history[i..];
        if history[i].call == call && history[i].result.None? {
          history := history[i := Record(call, Some(output))];
          return;
        }
      }
    }

    method RecordBlock()
      modifies this`blockedCount
      ensures blockedCount == old(blockedCount) + 1
    {
      blockedCount := blockedCount + 1;
    }

    method NoProgressStreak(call: Call) returns (streak: nat)
      ensures streak == Streak(history, call)
    {
      streak := 0;
      var latest: Option<string> := None;
      var i := |history|;
      assert history[..i] == history;
      while i > 0
        invariant 0 <= i <= |history|
        invariant latest.None? ==> streak == 0 && Results(history, call) == Results(history[..i], call)
        invariant latest.Some? ==>
          Streak(history, call) == streak + RunOf(Results(history[..i], call), latest.value)
      {
        i := i - 1;
        assert history[..i + 1][..i] == history[..i];
        var r := history[i];
        if r.call == call && r.result.Some? {
          ResultsSnoc(history[..i + 1], call);
        }
        if r.call == call {
          match (r.result, latest)
          case (Some(rh), None) =>
            latest := Some(rh);
            streak := 1;
          case (Some(rh), Some(l)) =>
            if rh != l {
              return;
            }
            streak := streak + 1;
          case (None, _) =>
        }
      }
    }

    method DetectPingPong(call: Call) returns (n: nat)
      ensures n == PingPongCount(history, call)
    {
      if |history| < 4 {
        return 0;
      }
      var last := history[|history| - 1].call;
      var other: Option<Call> := None;
      var i := |history| - 1;
      while i > 0 && other.None?
        invariant 0 <= i < |history|
        invariant other.None? ==> OtherCall(history, last) == OtherCall(history[..i], last)
        invariant other.Some? ==> OtherCall(history, last) == other
      {
        i := i - 1;
        assert history[..i + 1][..i] == history[..i];
        if history[i].call != last {
          other := Some(history[i].call);
        }
      }
      if other.None? {
        return 0;
      }
      var alternating := 0;
      var j := |history|;
      assert history[..j] == history;
      while j > 0
        invariant 0 <= j <= |history| && alternating == |history| - j
        invariant AltTail(history) == alternating +
          if alternating % 2 == 0 then AltRun(history[..j], last, other.value)
          else AltRun(history[..j], other.value, last)
      {
        assert history[..j][..j - 1] == history[..j - 1];
        var expected := if alternating % 2 == 0 then last else other.value;
        if history[j - 1].call != expected {
          break;
        }
        alternating := alternating + 1;
        j := j - 1;
      }
      if alternating >= 4 && call == other.value {
        return alternating;
      }
      return 0;
    }
  }
}
