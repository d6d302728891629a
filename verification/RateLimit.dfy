/** crates/openclaw-gateway/src/ratelimit.rs: a sliding-window limiter that keeps, per user,
    the times of the accepted messages of the last window. Times are nanoseconds. */
module RateLimit {
  import opened Common

  const NANOS: nat := 1_000_000_000

  datatype Answer = Accepted | Rejected(waitSecs: nat)

  /** The duration between two instants, 0 if they are out of order. */
  function Since(now: int, t: int): nat {
    Max(now - t, 0)
  }

  /** The times less than a window old. */
  function Live(ts: seq<int>, now: int, window: nat): seq<int> {
    if ts == [] then []
    else if Since(now, ts[|ts| - 1]) < window then Live(ts[..|ts| - 1], now, window) + [ts[|ts| - 1]]
    else Live(ts[..|ts| - 1], now, window)
  }

  /** The decision on a request: the user's new times, and the answer. */
  function Decide(limit: nat, window: nat, ts: seq<int>, now: int): (seq<int>, Answer)
    requires limit >= 1
  {
    var live := Live(ts, now, window);
    if |live| >= limit then (live, Rejected(Max(window - Since(now, live[0]), 0) / NANOS + 1))
    else (live + [now], Accepted)
  }

  function Entry(state: map<int, seq<int>>, user: int): seq<int> {
    if user in state then state[user] else []
  }

  function AfterRequest(limit: nat, window: nat, state: map<int, seq<int>>, user: int, now: int): map<int, seq<int>>
    requires limit >= 1
  {
    state[user := Decide(limit, window, Entry(state, user), now).0]
  }

  class RateLimiter {
    const maxMessages: nat
    const windowSecs: nat
    var state: map<int, seq<int>>

    /** With a limit of 0 the source would look for the oldest of no messages and panic. */
    constructor (maxMessages: nat, windowSecs: nat)
      requires maxMessages >= 1
      ensures this.maxMessages == maxMessages && this.windowSecs == windowSecs && state == map[]
    {
      this.maxMessages := maxMessages;
      this.windowSecs := windowSecs;
      state := map[];
    }

    method Check(user: int, now: int) returns (answer: Answer)
      requires maxMessages >= 1
      modifies this
      ensures answer == Decide(maxMessages, windowSecs * NANOS, Entry(old(state), user), now).1
      ensures state == AfterRequest(maxMessages, windowSecs * NANOS, old(state), user, now)
    {
      var window := windowSecs * NANOS;
      var timestamps := Live(Entry(state, user), now, window);
      if |timestamps| >= maxMessages {
        var oldest := timestamps[0];
        answer := Rejected(Max(window - Since(now, oldest), 0) / NANOS + 1);
      } else {
        timestamps := timestamps + [now];
        answer := Accepted;
      }
      state := state[user := timestamps];
    }
  }

  // ----- Users do not disturb each other -----

  datatype Request = Request(user: int, time: int)

  function StateAfter(limit: nat, window: nat, requests: seq<Request>): map<int, seq<int>>
    requires limit >= 1
  {
    if requests == [] then map[]
    else
      var r := requests[|requests| - 1];
      AfterRequest(limit, window, StateAfter(limit, window, requests[..|requests| - 1]), r.user, r.time)
  }

  /** The times at which one user asked. */
  function TimesOf(requests: seq<Request>, user: int): seq<int> {
    if requests == [] then []
    else
      var r := requests[|requests| - 1];
      TimesOf(requests[..|requests| - 1], user) + if r.user == user then [r.time] else []
  }

  /** In every trace of many users, a user's entry is what their own requests alone lead to. */
  lemma {:induction false} UsersAreIndependent(limit: nat, window: nat, requests: seq<Request>, user: int)
    requires limit >= 1
    ensures Entry(StateAfter(limit, window, requests), user) == TimesAfter(limit, window, TimesOf(requests, user))
    decreases |requests|
  {
    if requests != [] {
      var r := requests[|requests| - 1];
      var before := TimesOf(requests[..|requests| - 1], user);
      UsersAreIndependent(limit, window, requests[..|requests| - 1], user);
      assert (before + [r.time])[..|before|] == before;
      assert before + [] == before;
    }
  }

  // ----- Traces of one user's requests -----

  /** The user's entry after requests at the given times. */
  function TimesAfter(limit: nat, window: nat, requests: seq<int>): seq<int>
    requires limit >= 1
  {
    if requests == [] then []
    else Decide(limit, window, TimesAfter(limit, window, requests[..|requests| - 1]), requests[|requests| - 1]).0
  }

  /** The times of all requests accepted so far. */
  function Accepts(limit: nat, window: nat, requests: seq<int>): seq<int>
    requires limit >= 1
  {
    if requests == [] then []
    else
      var k := |requests| - 1;
      var before := Accepts(limit, window, requests[..k]);
      var answer := Decide(limit, window, TimesAfter(limit, window, requests[..k]), requests[k]).1;
      if answer.Accepted? then before + [requests[k]] else before
  }

  predicate Ordered(ts: seq<int>) {
    forall i, j :: 0 <= i <= j < |ts| ==> ts[i] <= ts[j]
  }

  /** The user's entry is the end of the accept log; all earlier accepts have expired. */
  ghost predicate EntryIs(log: seq<int>, entry: seq<int>, window: nat, now: int, dropped: nat) {
    dropped <= |log| && entry == log[dropped..] && Past(log, now) && Expired(log, dropped, window, now)
  }

  ghost predicate Past(log: seq<int>, now: int) {
    Ordered(log) && forall i :: 0 <= i < |log| ==> log[i] <= now
  }

  ghost predicate Expired(log: seq<int>, n: nat, window: nat, now: int)
    requires n <= |log|
  {
    forall i :: 0 <= i < n ==> now - log[i] >= window
  }

  /** Dropping expired times from the end of an ordered log drops a front part of it. */
  lemma {:induction false} LiveIsSuffix(log: seq<int>, dropped: nat, n: nat, now: int, window: nat) returns (d: nat)
    requires dropped <= n <= |log| && Past(log, now) && Expired(log, dropped, window, now)
    ensures dropped <= d <= n && Live(log[dropped..n], now, window) == log[d..n]
    ensures Expired(log, d, window, now)
    ensures forall i :: d <= i < n ==> now - log[i] < window
    decreases n
  {
    if n == dropped {
      d := n;
    } else {
      var k := n - 1;
      d := LiveIsSuffix(log, dropped, k, now, window);
      assert log[dropped..n][..k - dropped] == log[dropped..k];
      assert log[dropped..n][k - dropped] == log[k];
      if now - log[k] < window {
        assert log[d..k] + [log[k]] == log[d..n];
      } else {
        assert log[d] <= log[k];
        d := n;
      }
    }
  }

  /** One decision: the live times are the end of the log. */
  lemma {:induction false} LiveOfEntry(window: nat, log: seq<int>, entry: seq<int>, before: int, now: int, dropped: nat)
    returns (d: nat)
    requires before <= now && EntryIs(log, entry, window, before, dropped)
    ensures d <= |log| && Live(entry, now, window) == log[d..] && Past(log, now)
    ensures Expired(log, d, window, now)
    ensures forall i :: d <= i < |log| ==> now - log[i] < window
    ensures |log| - d <= |entry|
  {
    d := LiveIsSuffix(log, dropped, |log|, now, window);
    assert log[dropped..|log|] == entry;
    assert log[d..|log|] == log[d..];
  }

  lemma {:induction false} DecideKeepsEntry(limit: nat, window: nat, log: seq<int>, entry: seq<int>, before: int,
                                            now: int, dropped: nat)
    returns (d: nat)
    requires limit >= 1 && before <= now && EntryIs(log, entry, window, before, dropped) && |entry| <= limit
    ensures var (entry', answer) := Decide(limit, window, entry, now);
            EntryIs(if answer.Accepted? then log + [now] else log, entry', window, now, d) && |entry'| <= limit
  {
    d := LiveOfEntry(window, log, entry, before, now, dropped);
    assert (log + [now])[d..] == log[d..] + [now];
  }

  /** At every point of every trace. */
  lemma {:induction false} EntryAfter(limit: nat, window: nat, requests: seq<int>) returns (dropped: nat)
    requires limit >= 1 && Ordered(requests) && requests != []
    ensures EntryIs(Accepts(limit, window, requests), TimesAfter(limit, window, requests), window,
                    requests[|requests| - 1], dropped)
    ensures |TimesAfter(limit, window, requests)| <= limit
    decreases |requests|
  {
    var k := |requests| - 1;
    if k == 0 {
      dropped := DecideKeepsEntry(limit, window, [], [], requests[0], requests[0], 0);
      assert requests[..0] == [];
    } else {
      var d := EntryAfter(limit, window, requests[..k]);
      dropped := DecideKeepsEntry(limit, window, Accepts(limit, window, requests[..k]),
                                  TimesAfter(limit, window, requests[..k]), requests[k - 1], requests[k], d);
    }
  }

  // ----- The guarantees -----

  /** The accept that is `limit` before the end of the log is still in the window. */
  ghost predicate FullWindow(log: seq<int>, limit: nat, window: nat, now: int)
    requires limit >= 1
  {
    |log| >= limit && now - log[|log| - limit] < window
  }

  /** A request is rejected exactly when the last `limit` accepts all lie within the
      window; the wait then reaches past the moment the oldest of them leaves it, by at
      most one second. */
  lemma {:induction false} RejectedIff(limit: nat, window: nat, log: seq<int>, entry: seq<int>, before: int, now: int,
                                       dropped: nat)
    requires limit >= 1 && before <= now && EntryIs(log, entry, window, before, dropped) && |entry| <= limit
    ensures var answer := Decide(limit, window, entry, now).1;
            && (answer.Rejected? <==> FullWindow(log, limit, window, now))
            && (answer.Rejected? ==>
                  var free := log[|log| - limit] + window;
                  now + (answer.waitSecs - 1) * NANOS <= free < now + answer.waitSecs * NANOS)
  {
    var d := LiveOfEntry(window, log, entry, before, now, dropped);
    if |log| - d >= limit {
      assert d == |log| - limit;
    }
  }

  /** For every trace of requests, the next one is answered as RejectedIff says. */
  lemma {:induction false} TraceRejectedIff(limit: nat, window: nat, requests: seq<int>, now: int)
    requires limit >= 1 && Ordered(requests + [now])
    ensures var log := Accepts(limit, window, requests);
            var answer := Decide(limit, window, TimesAfter(limit, window, requests), now).1;
            && (answer.Rejected? <==> FullWindow(log, limit, window, now))
            && (answer.Rejected? ==>
                  var free := log[|log| - limit] + window;
                  now + (answer.waitSecs - 1) * NANOS <= free < now + answer.waitSecs * NANOS)
  {
    if requests == [] {
      RejectedIff(limit, window, [], [], now, now, 0);
    } else {
      var k := |requests| - 1;
      assert (requests + [now])[k] == requests[k] && (requests + [now])[k + 1] == now;
      assert forall i :: 0 <= i < |requests| ==> (requests + [now])[i] == requests[i];
      var dropped := EntryAfter(limit, window, requests);
      RejectedIff(limit, window, Accepts(limit, window, requests), TimesAfter(limit, window, requests),
                  requests[k], now, dropped);
    }
  }

  /** Coming back after the returned wait, with nothing accepted in between, succeeds;
      coming back a second or more before it does not. */
  lemma {:induction false} RetryAfterWait(limit: nat, window: nat, requests: seq<int>, now: int, again: int)
    requires limit >= 1 && Ordered(requests + [now]) && again >= now
    requires Decide(limit, window, TimesAfter(limit, window, requests), now).1.Rejected?
    ensures var wait := Decide(limit, window, TimesAfter(limit, window, requests), now).1.waitSecs;
            var answer := Decide(limit, window, TimesAfter(limit, window, requests + [now]), again).1;
            && (again >= now + wait * NANOS ==> answer.Accepted?)
            && (again < now + (wait - 1) * NANOS ==> answer.Rejected?)
  {
    TraceRejectedIff(limit, window, requests, now);
    assert (requests + [now])[..|requests|] == requests;
    assert Accepts(limit, window, requests + [now]) == Accepts(limit, window, requests);
    TraceRejectedIff(limit, window, requests + [now], again);
  }

  /** In every trace, the accept `limit` places later is at least a window later. */
  lemma {:induction false} AcceptsAreSpaced(limit: nat, window: nat, requests: seq<int>, i: nat)
    requires limit >= 1 && Ordered(requests)
    requires i + limit < |Accepts(limit, window, requests)|
    ensures var log := Accepts(limit, window, requests); log[i + limit] - log[i] >= window
    decreases |requests|
  {
    var k := |requests| - 1;
    var before := Accepts(limit, window, requests[..k]);
    if i + limit < |before| {
      AcceptsAreSpaced(limit, window, requests[..k], i);
    } else {
      assert requests[..k] + [requests[k]] == requests;
      TraceRejectedIff(limit, window, requests[..k], requests[k]);
      assert i == |before| - limit;
    }
  }

  /** So no half-open time window of the limiter's length holds more than `limit` accepts. */
  lemma {:induction false} WindowHoldsAtMostLimit(limit: nat, window: nat, requests: seq<int>, start: int, i: nat,
                                                  j: nat)
    requires limit >= 1 && Ordered(requests) && i <= j < |Accepts(limit, window, requests)|
    requires start <= Accepts(limit, window, requests)[i] && Accepts(limit, window, requests)[j] < start + window
    ensures j - i + 1 <= limit
  {
    if j - i >= limit {
      var dropped := EntryAfter(limit, window, requests);
      AcceptsAreSpaced(limit, window, requests, i);
      assert false;
    }
  }
}
