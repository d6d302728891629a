/** Which outcome reaches which record. The detector gives an outcome to the newest open
    record of its call (crates/openclaw-agent/src/loop_detection.rs:214-228), while a round
    reports its outcomes oldest first (crates/openclaw-agent/src/runtime.rs:434-466). So
    among equal calls of one batch the outcomes arrive in reverse. */
module LoopOutcomes {
  import opened Common
  import opened LoopDetection
  import opened LoopRuns

  function Copies<T>(x: T, n: nat): seq<T> {
    seq(n, _ => x)
  }

  function OpenRecords(calls: seq<Call>): seq<Record> {
    seq(|calls|, i requires 0 <= i < |calls| => Record(calls[i], None))
  }

  // ----- Places among equal calls -----

  /** How many calls before place i equal the call there. */
  function EqualBefore(ran: seq<Call>, i: nat): nat
    requires i < |ran|
  {
    Occurrences(ran[..i], ran[i])
  }

  function EqualAfter(ran: seq<Call>, i: nat): (n: nat)
    requires i < |ran|
  {
    EarlierIsLess(ran, ran[i], i, |ran|);
    Occurrences(ran[..|ran|], ran[i]) - EqualBefore(ran, i) - 1
  }

  lemma {:induction false} EarlierIsLess(ran: seq<Call>, call: Call, i: nat, j: nat)
    requires i < j <= |ran| && ran[i] == call
    ensures Occurrences(ran[..i], call) < Occurrences(ran[..j], call)
    decreases j
  {
    assert ran[..j][..j - 1] == ran[..j - 1];
    if i < j - 1 {
      EarlierIsLess(ran, call, i, j - 1);
    }
  }

  /** The place of the occurrence of a call that has n occurrences before it. */
  function Place(ran: seq<Call>, call: Call, n: nat): (i: nat)
    requires n < Occurrences(ran, call)
    ensures i < |ran| && ran[i] == call && EqualBefore(ran, i) == n
  {
    var k := |ran| - 1;
    if n < Occurrences(ran[..k], call) then
      var i := Place(ran[..k], call, n);
      assert ran[..k][..i] == ran[..i];
      i
    else k
  }

  /** The place that has as many equal calls before it as place i has after it. */
  function Mirror(ran: seq<Call>, i: nat): (j: nat)
    requires i < |ran|
    ensures j < |ran| && ran[j] == ran[i] && EqualBefore(ran, j) == EqualAfter(ran, i)
  {
    assert ran[..|ran|] == ran;
    Place(ran, ran[i], EqualAfter(ran, i))
  }

  /** Equal calls are told apart by how many stand before them. */
  lemma {:induction false} SamePlace(ran: seq<Call>, i: nat, j: nat)
    requires i < |ran| && j < |ran| && ran[i] == ran[j]
    ensures EqualBefore(ran, i) < EqualBefore(ran, j) <==> i < j
    ensures EqualBefore(ran, i) == EqualBefore(ran, j) <==> i == j
  {
    if i < j {
      EarlierIsLess(ran, ran[i], i, j);
    } else if j < i {
      EarlierIsLess(ran, ran[i], j, i);
    }
  }

  lemma {:induction false} MirrorReverses(ran: seq<Call>, i: nat, j: nat)
    requires i < |ran| && j < |ran| && ran[i] == ran[j]
    ensures i < j <==> Mirror(ran, j) < Mirror(ran, i)
  {
    SamePlace(ran, i, j);
    SamePlace(ran, Mirror(ran, j), Mirror(ran, i));
  }

  lemma {:induction false} MirrorTwice(ran: seq<Call>, i: nat)
    requires i < |ran|
    ensures Mirror(ran, Mirror(ran, i)) == i
  {
    SamePlace(ran, Mirror(ran, Mirror(ran, i)), i);
  }

  /** A call is its own mirror exactly when as many equal calls stand before as after it. */
  lemma {:induction false} OwnMirrorIff(ran: seq<Call>, i: nat)
    requires i < |ran|
    ensures Mirror(ran, i) == i <==> EqualBefore(ran, i) == EqualAfter(ran, i)
  {
    SamePlace(ran, Mirror(ran, i), i);
  }

  // ----- A batch in the window -----

  /** The calls of a batch that ran stand, open, at the end of the window; the oldest
      records may have been evicted, of the batch itself if it overruns the window. */
  lemma {:induction false} BatchInWindow(cfg: Config, h: seq<Record>, calls: seq<Call>) returns (e: nat)
    ensures var ran := Allowed(cfg, h, calls);
            && e <= |h| + |ran| && Attempts(cfg, h, calls) == (h + OpenRecords(ran))[e..]
            && |h| + |ran| - e >= Min(|ran|, cfg.historySize)
    decreases |calls|
  {
    if calls == [] {
      e := 0;
      assert h + OpenRecords([]) == h;
    } else {
      var k := |calls| - 1;
      e := BatchInWindow(cfg, h, calls[..k]);
      if !VerdictAt(cfg, h, calls, k).Block? {
        e := OneMoreInWindow(cfg, h, e, Allowed(cfg, h, calls[..k]), calls[k]);
      }
    }
  }

  lemma {:induction false} OneMoreInWindow(cfg: Config, h: seq<Record>, e: nat, ran: seq<Call>, call: Call)
    returns (e': nat)
    requires e <= |h| + |ran| && |h| + |ran| - e >= Min(|ran|, cfg.historySize)
    ensures e' <= |h| + |ran| + 1
    ensures Push(cfg, (h + OpenRecords(ran))[e..], call) == (h + OpenRecords(ran + [call]))[e'..]
    ensures |h| + |ran| + 1 - e' >= Min(|ran| + 1, cfg.historySize)
  {
    var longer := (h + OpenRecords(ran))[e..] + [Record(call, None)];
    assert longer == (h + OpenRecords(ran + [call]))[e..];
    e' := if |longer| > cfg.historySize then e + 1 else e;
  }

  // ----- Where the outcomes go -----

  /** The record of place i after the outcomes of the first n calls of the batch. */
  function RecordAfter(ran: seq<Call>, outputs: nat -> string, n: nat, i: nat): Record
    requires i < |ran|
  {
    var j := Mirror(ran, i);
    Record(ran[i], if j < n then Some(outputs(j)) else None)
  }

  function RecordsAfter(ran: seq<Call>, outputs: nat -> string, n: nat): seq<Record> {
    seq(|ran|, i requires 0 <= i < |ran| => RecordAfter(ran, outputs, n, i))
  }

  /** An outcome lands on the last open record of its call. */
  lemma {:induction false} CloseLastOpen(h: seq<Record>, call: Call, output: string, p: nat)
    requires p < |h| && h[p] == Record(call, None)
    requires forall q :: p < q < |h| ==> h[q] != Record(call, None)
    ensures Close(h, call, output) == h[p := Record(call, Some(output))]
    decreases |h|
  {
    var k := |h| - 1;
    if p < k {
      assert h[k] != Record(call, None);
      CloseLastOpen(h[..k], call, output, p);
    }
  }

  lemma {:induction false} CloseNothing(h: seq<Record>, call: Call, output: string)
    requires forall q :: 0 <= q < |h| ==> h[q] != Record(call, None)
    ensures Close(h, call, output) == h
    decreases |h|
  {
    if h != [] {
      assert h[|h| - 1] != Record(call, None);
      CloseNothing(h[..|h| - 1], call, output);
    }
  }

  /** The mirror of place n holds the last open record of its call. */
  lemma {:induction false} MirrorIsLastOpen(ran: seq<Call>, outputs: nat -> string, n: nat)
    requires n < |ran|
    ensures RecordAfter(ran, outputs, n, Mirror(ran, n)) == Record(ran[n], None)
    ensures forall i :: Mirror(ran, n) < i < |ran| ==> RecordAfter(ran, outputs, n, i) != Record(ran[n], None)
  {
    var m := Mirror(ran, n);
    MirrorTwice(ran, n);
    forall i | m < i < |ran| ensures RecordAfter(ran, outputs, n, i) != Record(ran[n], None) {
      if ran[i] == ran[n] {
        MirrorReverses(ran, m, i);
      }
    }
  }

  /** Outcome n changes the record at the mirror of place n only. */
  lemma {:induction false} OnlyMirrorChanges(ran: seq<Call>, outputs: nat -> string, n: nat)
    requires n < |ran|
    ensures RecordsAfter(ran, outputs, n + 1)
         == RecordsAfter(ran, outputs, n)[Mirror(ran, n) := Record(ran[n], Some(outputs(n)))]
  {
    MirrorTwice(ran, n);
    forall i | 0 <= i < |ran| && i != Mirror(ran, n)
      ensures RecordAfter(ran, outputs, n, i) == RecordAfter(ran, outputs, n + 1, i)
    {
      MirrorTwice(ran, i);
    }
  }

  lemma {:induction false} OneMoreOutcome(h: seq<Record>, ran: seq<Call>, outputs: nat -> string, e: nat, n: nat)
    requires n < |ran| && e <= |h| + |ran|
    ensures Close((h + RecordsAfter(ran, outputs, n))[e..], ran[n], outputs(n))
         == (h + RecordsAfter(ran, outputs, n + 1))[e..]
  {
    var records, m := RecordsAfter(ran, outputs, n), Mirror(ran, n);
    var g, p := h + records, |h| + m;
    MirrorIsLastOpen(ran, outputs, n);
    OnlyMirrorChanges(ran, outputs, n);
    assert g[p := Record(ran[n], Some(outputs(n)))] == h + RecordsAfter(ran, outputs, n + 1);
    forall q | p < q < |g| ensures g[q] != Record(ran[n], None) {
      assert g[q] == RecordAfter(ran, outputs, n, q - |h|);
    }
    CloseInSuffix(g, ran[n], outputs(n), p, e);
  }

  lemma {:induction false} CloseInSuffix(g: seq<Record>, call: Call, output: string, p: nat, e: nat)
    requires p < |g| && e <= |g| && g[p] == Record(call, None)
    requires forall q :: p < q < |g| ==> g[q] != Record(call, None)
    ensures Close(g[e..], call, output) == g[p := Record(call, Some(output))][e..]
  {
    if e <= p {
      CloseLastOpen(g[e..], call, output, p - e);
    } else {
      CloseNothing(g[e..], call, output);
    }
  }

  lemma {:induction false} OutcomesOfBatch(h: seq<Record>, ran: seq<Call>, outputs: nat -> string, e: nat, n: nat)
    requires n <= |ran| && e <= |h| + |ran|
    ensures Outcomes((h + OpenRecords(ran))[e..], ran[..n], outputs) == (h + RecordsAfter(ran, outputs, n))[e..]
    decreases n
  {
    if n == 0 {
      assert RecordsAfter(ran, outputs, 0) == OpenRecords(ran);
    } else {
      assert ran[..n][..n - 1] == ran[..n - 1];
      OutcomesOfBatch(h, ran, outputs, e, n - 1);
      OneMoreOutcome(h, ran, outputs, e, n - 1);
    }
  }

  /** What any round leaves of any window: for each call that ran, in order, a record with
      the outcome of its mirror; and of all that, the newest part. */
  lemma {:induction false} RoundRecords(cfg: Config, h: seq<Record>, round: Round) returns (e: nat)
    ensures var ran := Allowed(cfg, h, round.calls);
            && e <= |h| + |ran|
            && AfterRound(cfg, h, round) == (h + RecordsAfter(ran, round.outputs, |ran|))[e..]
            && |h| + |ran| - e >= Min(|ran|, cfg.historySize)
  {
    var ran := Allowed(cfg, h, round.calls);
    e := BatchInWindow(cfg, h, round.calls);
    OutcomesOfBatch(h, ran, round.outputs, e, |ran|);
    TakeAll(ran);
  }

  /** The record of the i-th call that ran in a round, unless the window has lost it. */
  function RecordOfCall(cfg: Config, h: seq<Record>, round: Round, i: nat): Option<Record>
    requires i < |Allowed(cfg, h, round.calls)|
  {
    var after := AfterRound(cfg, h, round);
    var fromEnd := |Allowed(cfg, h, round.calls)| - i;
    if fromEnd <= |after| then Some(after[|after| - fromEnd]) else None
  }

  /** The record of a call holds the outcome of its mirror. So it holds the call's own
      outcome exactly when the outcome at the mirror place is the same. */
  lemma {:induction false} OwnOutcomeIff(cfg: Config, h: seq<Record>, round: Round, i: nat)
    requires i < |Allowed(cfg, h, round.calls)| <= i + cfg.historySize
    ensures var ran := Allowed(cfg, h, round.calls);
            && RecordOfCall(cfg, h, round, i) == Some(Record(ran[i], Some(round.outputs(Mirror(ran, i)))))
            && (RecordOfCall(cfg, h, round, i) == Some(Record(ran[i], Some(round.outputs(i))))
                <==> round.outputs(Mirror(ran, i)) == round.outputs(i))
  {
    var ran := Allowed(cfg, h, round.calls);
    var e := RoundRecords(cfg, h, round);
    var all := h + RecordsAfter(ran, round.outputs, |ran|);
    assert all[e..][|h| + i - e] == all[|h| + i] == RecordAfter(ran, round.outputs, |ran|, i);
  }

  /** The condition on the batch alone: whatever the outcomes are, the record gets its own
      exactly when as many equal calls stand before it as after it. */
  lemma {:induction false} AlwaysOwnOutcomeIff(cfg: Config, h: seq<Record>, calls: seq<Call>, i: nat)
    requires i < |Allowed(cfg, h, calls)| <= i + cfg.historySize
    ensures EqualBefore(Allowed(cfg, h, calls), i) == EqualAfter(Allowed(cfg, h, calls), i)
       <==> AlwaysOwn(cfg, h, calls, i)
  {
    var ran := Allowed(cfg, h, calls);
    OwnMirrorIff(ran, i);
    forall outputs: nat -> string
      ensures HoldsOwn(cfg, h, calls, i, outputs) <==> outputs(Mirror(ran, i)) == outputs(i)
    {
      HoldsOwnIff(cfg, h, calls, i, outputs);
    }
    var telltale: nat -> string := (k: nat) => if k == i then "own" else "other";
    assert HoldsOwn(cfg, h, calls, i, telltale) <==> Mirror(ran, i) == i by {
      assert "own"[1] != "other"[1];
    }
  }

  lemma {:induction false} HoldsOwnIff(cfg: Config, h: seq<Record>, calls: seq<Call>, i: nat, outputs: nat -> string)
    requires i < |Allowed(cfg, h, calls)| <= i + cfg.historySize
    ensures HoldsOwn(cfg, h, calls, i, outputs) <==> outputs(Mirror(Allowed(cfg, h, calls), i)) == outputs(i)
  {
    OwnOutcomeIff(cfg, h, Round(calls, outputs), i);
  }

  predicate HoldsOwn(cfg: Config, h: seq<Record>, calls: seq<Call>, i: nat, outputs: nat -> string)
    requires i < |Allowed(cfg, h, calls)|
  {
    RecordOfCall(cfg, h, Round(calls, outputs), i) == Some(Record(Allowed(cfg, h, calls)[i], Some(outputs(i))))
  }

  ghost predicate AlwaysOwn(cfg: Config, h: seq<Record>, calls: seq<Call>, i: nat)
    requires i < |Allowed(cfg, h, calls)|
  {
    forall outputs: nat -> string :: HoldsOwn(cfg, h, calls, i, outputs)
  }

  // ----- Batches of equal calls -----

  lemma {:induction false} OccurrencesOfCopies(call: Call, n: nat)
    ensures Occurrences(Copies(call, n), call) == n
    decreases n
  {
    if n > 0 {
      assert Copies(call, n)[..n - 1] == Copies(call, n - 1);
      OccurrencesOfCopies(call, n - 1);
    }
  }

  lemma {:induction false} MirrorOfCopies(call: Call, n: nat, i: nat)
    requires i < n
    ensures Mirror(Copies(call, n), i) == n - 1 - i
  {
    var ran := Copies(call, n);
    assert ran[..i] == Copies(call, i) && ran[..n] == ran && ran[..n - 1 - i] == Copies(call, n - 1 - i);
    OccurrencesOfCopies(call, i);
    OccurrencesOfCopies(call, n);
    OccurrencesOfCopies(call, n - 1 - i);
    SamePlace(ran, Mirror(ran, i), n - 1 - i);
  }

  /** Equal calls of one batch receive their outcomes in reverse order. */
  lemma {:induction false} CloseFromEnd(call: Call, n: nat, outputs: nat -> string, j: nat)
    requires j < n
    ensures var closed := Outcomes(Copies(Record(call, None), n), Copies(call, n), outputs);
            |closed| == n && closed[j] == Record(call, Some(outputs(n - 1 - j)))
  {
    var ran := Copies(call, n);
    assert ran[..n] == ran && ([] + OpenRecords(ran))[0..] == Copies(Record(call, None), n);
    OutcomesOfBatch([], ran, outputs, 0, n);
    MirrorOfCopies(call, n, j);
    assert Outcomes(Copies(Record(call, None), n), ran, outputs)[j] == RecordAfter(ran, outputs, n, j);
  }
}
