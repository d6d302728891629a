/** crates/openclaw-agent/src/llm/fallback.rs: a chain of providers tried in order. A
    provider that has failed four times in a row is skipped from then on.
    Requests are taken one after the other. */
module Fallback {
  import opened Common

  /** A provider is skipped when its counter is above this. */
  const MAX_FAILURES: nat := 3

  /** What a provider would answer to one request if it were asked. */
  datatype Outcome = Completed(completion: int) | Failed(error: int)

  /** What the chain answers; `Exhausted` if no provider was asked at all. */
  datatype Answer = Success(completion: int) | Failure(error: int) | Exhausted

  // ----- One request -----

  predicate Closed(failures: seq<nat>, i: nat)
    requires i < |failures|
  {
    failures[i] <= MAX_FAILURES
  }

  predicate Serves(failures: seq<nat>, outcomes: seq<Outcome>, i: nat)
    requires |failures| == |outcomes| && i < |outcomes|
  {
    Closed(failures, i) && outcomes[i].Completed?
  }

  /** Entry i is asked when its circuit is closed and no entry before it has answered. */
  ghost predicate Asked(failures: seq<nat>, outcomes: seq<Outcome>, i: nat)
    requires |failures| == |outcomes| && i < |outcomes|
  {
    Closed(failures, i) && forall k :: 0 <= k < i ==> !Serves(failures, outcomes, k)
  }

  /** The counters after a request, entry by entry. */
  ghost predicate Counted(before: seq<nat>, outcomes: seq<Outcome>, after: seq<nat>)
    requires |before| == |outcomes|
  {
    && |after| == |before|
    && forall i :: 0 <= i < |before| ==> after[i] == Count(before, outcomes, i)
  }

  ghost function Count(before: seq<nat>, outcomes: seq<Outcome>, i: nat): nat
    requires |before| == |outcomes| && i < |before|
  {
    if !Asked(before, outcomes, i) then before[i]
    else if outcomes[i].Completed? then 0
    else before[i] + 1
  }

  /** Success comes from the first entry that serves; an error from the last one asked. */
  ghost predicate Answered(before: seq<nat>, outcomes: seq<Outcome>, answer: Answer, winner: Option<nat>)
    requires |before| == |outcomes|
  {
    match answer
    case Success(c) =>
      && winner.Some? && winner.value < |outcomes| && Asked(before, outcomes, winner.value)
      && outcomes[winner.value] == Completed(c)
    case Failure(e) =>
      && winner == None && (forall i :: 0 <= i < |outcomes| ==> !Serves(before, outcomes, i))
      && exists i :: LastFailure(before, outcomes, |outcomes|, i, e)
    case Exhausted =>
      winner == None && forall i :: 0 <= i < |outcomes| ==> !Closed(before, i)
  }

  /** Among the first n entries, i is the last with a closed circuit, and it failed with e. */
  ghost predicate LastFailure(before: seq<nat>, outcomes: seq<Outcome>, n: nat, i: nat, e: int)
    requires |before| == |outcomes| && n <= |outcomes|
  {
    && i < n && Closed(before, i) && outcomes[i] == Failed(e)
    && forall k :: i < k < n ==> !Closed(before, k)
  }

  class FallbackProvider {
    const labels: seq<string>
    var failures: seq<nat>
    var lastSuccessful: string

    ghost predicate Valid()
      reads this
    {
      |failures| == |labels|
    }

    constructor (labels: seq<string>)
      ensures Valid() && this.labels == labels
      ensures failures == Zeros(|labels|)
      ensures lastSuccessful == if labels == [] then "" else labels[0]
    {
      this.labels := labels;
      failures := Zeros(|labels|);
      lastSuccessful := if labels == [] then "" else labels[0];
    }

    method Complete(outcomes: seq<Outcome>) returns (answer: Answer, ghost winner: Option<nat>)
      requires Valid() && |outcomes| == |labels|
      modifies this
      ensures Valid() && Counted(old(failures), outcomes, failures)
      ensures Answered(old(failures), outcomes, answer, winner)
      ensures lastSuccessful == if winner.Some? then labels[winner.value] else old(lastSuccessful)
    {
      var lastError := None;
      ghost var before, lastAsked := failures, 0;
      winner := None;
      for i := 0 to |labels|
        invariant Valid() && lastSuccessful == old(lastSuccessful)
        invariant forall k :: 0 <= k < i ==> !Serves(before, outcomes, k)
        invariant forall k :: 0 <= k < i ==> failures[k] == Count(before, outcomes, k)
        invariant forall k :: i <= k < |labels| ==> failures[k] == before[k]
        invariant lastError == None ==> forall k :: 0 <= k < i ==> !Closed(before, k)
        invariant lastError.Some? ==> LastFailure(before, outcomes, i, lastAsked, lastError.value)
      {
        var count := failures[i];
        if count > MAX_FAILURES {
          continue;
        }
        match outcomes[i] {
          case Completed(completion) =>
            failures := failures[i := 0];
            lastSuccessful := labels[i];
            winner := Some(i);
            assert Serves(before, outcomes, i);
            return Success(completion), winner;
          case Failed(error) =>
            failures := failures[i := count + 1];
            lastError := Some(error);
            lastAsked := i;
        }
      }
      answer := if lastError.Some? then Failure(lastError.value) else Exhausted;
      assert lastError.Some? ==> LastFailure(before, outcomes, |outcomes|, lastAsked, lastError.value);
    }
  }

  function Zeros(n: nat): seq<nat> {
    seq(n, (i: nat) requires i < n => 0 as nat)
  }

  // ----- Runs of requests -----

  /** The counters after a run of requests to a fresh chain of n entries. */
  ghost function After(n: nat, requests: seq<seq<Outcome>>): (after: seq<nat>)
    requires forall r :: r in requests ==> |r| == n
    ensures |after| == n
  {
    if requests == [] then Zeros(n)
    else
      var before := After(n, requests[..|requests| - 1]);
      var r := requests[|requests| - 1];
      seq(n, (i: nat) requires i < n && |before| == |r| == n => Count(before, r, i))
  }

  /** What entry i actually answered, request by request. */
  ghost function CallsOf(n: nat, requests: seq<seq<Outcome>>, i: nat): seq<Outcome>
    requires i < n && forall r :: r in requests ==> |r| == n
  {
    if requests == [] then []
    else
      var r := requests[|requests| - 1];
      var before := CallsOf(n, requests[..|requests| - 1], i);
      if Asked(After(n, requests[..|requests| - 1]), r, i) then before + [r[i]] else before
  }

  /** How many failures a sequence of calls ends with. */
  function TrailingFailures(calls: seq<Outcome>): nat {
    if calls == [] || calls[|calls| - 1].Completed? then 0
    else TrailingFailures(calls[..|calls| - 1]) + 1
  }

  lemma {:induction false} TrailingSnoc(calls: seq<Outcome>, last: Outcome)
    ensures TrailingFailures(calls + [last]) == if last.Completed? then 0 else TrailingFailures(calls) + 1
  {
    assert (calls + [last])[..|calls|] == calls;
  }

  lemma {:induction false} LastRequest(n: nat, requests: seq<seq<Outcome>>, i: nat)
    requires i < n && requests != [] && forall r :: r in requests ==> |r| == n
    ensures var k := |requests| - 1;
            var before, calls := After(n, requests[..k]), CallsOf(n, requests[..k], i);
            && After(n, requests)[i] == Count(before, requests[k], i)
            && CallsOf(n, requests, i) == (if Asked(before, requests[k], i) then calls + [requests[k][i]] else calls)
  {
  }

  /** In every run each counter is the entry's trailing run of failed calls, at most four. */
  lemma {:induction false} CounterIsTrailingFailures(n: nat, requests: seq<seq<Outcome>>, i: nat)
    requires i < n && forall r :: r in requests ==> |r| == n
    ensures After(n, requests)[i] == TrailingFailures(CallsOf(n, requests, i)) <= MAX_FAILURES + 1
    decreases |requests|
  {
    if requests != [] {
      var k := |requests| - 1;
      CounterIsTrailingFailures(n, requests[..k], i);
      LastRequest(n, requests, i);
      TrailingSnoc(CallsOf(n, requests[..k], i), requests[k][i]);
    }
  }

  /** There is no way back: an entry with four failures keeps them and is never asked again. */
  lemma {:induction false} OpenForever(n: nat, requests: seq<seq<Outcome>>, more: seq<seq<Outcome>>, i: nat)
    requires i < n && forall r :: r in requests + more ==> |r| == n
    requires forall r :: r in requests ==> |r| == n
    requires After(n, requests)[i] > MAX_FAILURES
    ensures After(n, requests + more)[i] == After(n, requests)[i]
    ensures CallsOf(n, requests + more, i) == CallsOf(n, requests, i)
    decreases |more|
  {
    if more == [] {
      assert requests + more == requests;
    } else {
      var k := |more| - 1;
      assert (requests + more)[..|requests + more| - 1] == requests + more[..k];
      OpenForever(n, requests, more[..k], i);
    }
  }

  /** Once every entry is open, no later request reaches any provider. */
  lemma {:induction false} DeadChainStaysDead(n: nat, requests: seq<seq<Outcome>>, more: seq<seq<Outcome>>,
                                              next: seq<Outcome>,
                           answer: Answer, winner: Option<nat>)
    requires |next| == n && forall r :: r in requests + more ==> |r| == n
    requires forall r :: r in requests ==> |r| == n
    requires forall i :: 0 <= i < n ==> After(n, requests)[i] > MAX_FAILURES
    requires Answered(After(n, requests + more), next, answer, winner)
    ensures answer == Exhausted
  {
    forall i | 0 <= i < n ensures !Closed(After(n, requests + more), i) {
      OpenForever(n, requests, more, i);
    }
  }

  /** A success leaves no better entry behind: all earlier ones were open or failed now. */
  lemma {:induction false} SuccessIsFirst(before: seq<nat>, outcomes: seq<Outcome>, answer: Answer, winner: Option<nat>)
    requires |before| == |outcomes| && Answered(before, outcomes, answer, winner)
    ensures answer.Success? <==> exists i :: 0 <= i < |outcomes| && Serves(before, outcomes, i)
    ensures answer.Exhausted? <==> forall i :: 0 <= i < |outcomes| ==> !Closed(before, i)
    ensures answer.Success? ==> winner.value < |outcomes| && Serves(before, outcomes, winner.value)
    ensures answer.Success? ==> forall i :: 0 <= i < winner.value ==> before[i] > MAX_FAILURES || outcomes[i].Failed?
  {
    match answer
    case Success(_) =>
      assert Serves(before, outcomes, winner.value);
      forall i | 0 <= i < winner.value ensures before[i] > MAX_FAILURES || outcomes[i].Failed? {
        assert !Serves(before, outcomes, i);
      }
    case Failure(e) =>
      var i :| LastFailure(before, outcomes, |outcomes|, i, e);
      assert Closed(before, i);
    case Exhausted =>
      forall i | 0 <= i < |outcomes| ensures !Serves(before, outcomes, i) {
        assert !Closed(before, i);
      }
  }

  /** The answer is determined by the counters and the outcomes. */
  lemma {:induction false} AnswerIsDetermined(before: seq<nat>, outcomes: seq<Outcome>,
                           a: Answer, w: Option<nat>, a': Answer, w': Option<nat>)
    requires |before| == |outcomes|
    requires Answered(before, outcomes, a, w) && Answered(before, outcomes, a', w')
    ensures a == a' && w == w'
  {
    SuccessIsFirst(before, outcomes, a, w);
    SuccessIsFirst(before, outcomes, a', w');
    if a.Failure? {
      var i :| LastFailure(before, outcomes, |outcomes|, i, a.error);
      assert Closed(before, i);
      var j :| LastFailure(before, outcomes, |outcomes|, j, a'.error);
      assert Closed(before, j) && i == j;
    }
  }
}
