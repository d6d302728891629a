/** crates/openclaw-gateway/src/cron.rs: the cron executor wakes about every 30 seconds and
    fires the jobs that are due. An `every` job may fire in the first 45 seconds of each of
    its periods, never twice in one period and never twice within 55 seconds.
    Times are milliseconds. */
module Cron {
  import opened Common

  const GUARD_MS := 55_000
  const WINDOW_MS := 45_000

  datatype Schedule = CronExpr(expr: string) | Every(everyMs: nat, anchorMs: Option<nat>)

  datatype Job = Job(id: string, enabled: bool, isAgentTurn: bool, schedule: Schedule)

  // ----- One decision -----

  /** A 64-bit unsigned value read as a signed one. */
  function AsI64(n: nat): (i: int)
    ensures -0x8000_0000_0000_0000 <= i < 0x8000_0000_0000_0000
    ensures (n - i) % 0x1_0000_0000_0000_0000 == 0
  {
    var m := n % 0x1_0000_0000_0000_0000;
    if m < 0x8000_0000_0000_0000 then m else m - 0x1_0000_0000_0000_0000
  }

  /** Division that truncates toward zero. */
  function TruncDiv(a: int, b: int): int
    requires b != 0
  {
    if a >= 0 then a / b else -((-a) / b)
  }

  predicate GuardPasses(last: Option<int>, now: int) {
    last.Some? ==> now - last.value >= GUARD_MS
  }

  /** The start of the period the source takes `now` to be in. */
  function PeriodStart(anchor: int, interval: int, now: int): int
    requires interval != 0
  {
    anchor + TruncDiv(now - anchor, interval) * interval
  }

  /** `matches` stands for the evaluation of a cron expression at the current time. */
  predicate ShouldFire(schedule: Schedule, last: Option<int>, now: int, matches: string -> bool) {
    && GuardPasses(last, now)
    && match schedule
       case CronExpr(expr) => matches(expr)
       case Every(everyMs, anchorMs) =>
         var anchor := AsI64(anchorMs.GetOr(0));
         var interval := AsI64(everyMs);
         && interval != 0
         && now - PeriodStart(anchor, interval, now) <= WINDOW_MS
         && (last.Some? ==> last.value < PeriodStart(anchor, interval, now))
  }

  function LastRun(lastRun: map<string, int>, id: string): Option<int> {
    if id in lastRun then Some(lastRun[id]) else None
  }

  predicate Fires(job: Job, lastRun: map<string, int>, now: int, matches: string -> bool) {
    job.enabled && job.isAgentTurn && ShouldFire(job.schedule, LastRun(lastRun, job.id), now, matches)
  }

  // ----- One tick over all jobs -----

  /** The last-run table after the first jobs of a tick. */
  function AfterJobs(jobs: seq<Job>, lastRun: map<string, int>, now: int, matches: string -> bool): map<string, int> {
    if jobs == [] then lastRun
    else
      var k := |jobs| - 1;
      var before := AfterJobs(jobs[..k], lastRun, now, matches);
      if Fires(jobs[k], before, now, matches) then before[jobs[k].id := now] else before
  }

  /** The positions of the jobs that fire in a tick. */
  function FiredJobs(jobs: seq<Job>, lastRun: map<string, int>, now: int, matches: string -> bool): seq<nat> {
    if jobs == [] then []
    else
      var k := |jobs| - 1;
      var before := FiredJobs(jobs[..k], lastRun, now, matches);
      if Fires(jobs[k], AfterJobs(jobs[..k], lastRun, now, matches), now, matches) then before + [k] else before
  }

  class CronState {
    var lastRun: map<string, int>

    constructor ()
      ensures lastRun == map[]
    {
      lastRun := map[];
    }

    method Tick(jobs: seq<Job>, now: int, matches: string -> bool) returns (fired: seq<nat>)
      modifies this
      ensures lastRun == AfterJobs(jobs, old(lastRun), now, matches)
      ensures fired == FiredJobs(jobs, old(lastRun), now, matches)
    {
      fired := [];
      for i := 0 to |jobs|
        invariant lastRun == AfterJobs(jobs[..i], old(lastRun), now, matches)
        invariant fired == FiredJobs(jobs[..i], old(lastRun), now, matches)
      {
        assert jobs[..i + 1][..i] == jobs[..i];
        if !jobs[i].enabled {
          continue;
        }
        if !jobs[i].isAgentTurn {
          continue;
        }
        if !ShouldFire(jobs[i].schedule, LastRun(lastRun, jobs[i].id), now, matches) {
          continue;
        }
        lastRun := lastRun[jobs[i].id := now];
        fired := fired + [i];
      }
      assert jobs[..|jobs|] == jobs;
    }
  }

  /** A tick treats a job whose id no other job shares as if it were alone. */
  lemma {:induction false} JobsAreIndependent(jobs: seq<Job>, lastRun: map<string, int>, now: int,
                                              matches: string -> bool, k: nat)
    requires k < |jobs| && forall i :: 0 <= i < |jobs| && i != k ==> jobs[i].id != jobs[k].id
    ensures k in FiredJobs(jobs, lastRun, now, matches) <==> Fires(jobs[k], lastRun, now, matches)
    ensures LastRun(AfterJobs(jobs, lastRun, now, matches), jobs[k].id)
         == if Fires(jobs[k], lastRun, now, matches) then Some(now) else LastRun(lastRun, jobs[k].id)
    decreases |jobs|
  {
    var n := |jobs| - 1;
    FiredInRange(jobs[..n], lastRun, now, matches);
    if k < n {
      JobsAreIndependent(jobs[..n], lastRun, now, matches, k);
    } else {
      OtherJobsKeepLastRun(jobs[..n], lastRun, now, matches, jobs[n].id);
    }
  }

  lemma {:induction false} FiredInRange(jobs: seq<Job>, lastRun: map<string, int>, now: int, matches: string -> bool)
    ensures forall i :: i in FiredJobs(jobs, lastRun, now, matches) ==> i < |jobs|
    decreases |jobs|
  {
    if jobs != [] {
      FiredInRange(jobs[..|jobs| - 1], lastRun, now, matches);
    }
  }

  lemma {:induction false} OtherJobsKeepLastRun(jobs: seq<Job>, lastRun: map<string, int>, now: int,
                                                matches: string -> bool, id: string)
    requires forall i :: 0 <= i < |jobs| ==> jobs[i].id != id
    ensures LastRun(AfterJobs(jobs, lastRun, now, matches), id) == LastRun(lastRun, id)
    decreases |jobs|
  {
    if jobs != [] {
      OtherJobsKeepLastRun(jobs[..|jobs| - 1], lastRun, now, matches, id);
    }
  }

  // ----- What `every` jobs promise -----

  /** The period a time is in, counted from the anchor. */
  function Period(anchor: int, interval: int, now: int): int
    requires interval > 0
  {
    (now - anchor) / interval
  }

  /** What the source describes: within the first 45 seconds of the current period, not yet
      fired in it, and not within 55 seconds of the last run. */
  predicate Due(anchor: int, interval: int, last: Option<int>, now: int)
    requires interval > 0
  {
    var start := anchor + Period(anchor, interval, now) * interval;
    && GuardPasses(last, now)
    && now - start <= WINDOW_MS
    && (last.Some? ==> last.value < start)
  }

  predicate FiresEvery(anchor: int, interval: int, last: Option<int>, now: int)
    requires interval != 0
  {
    && GuardPasses(last, now)
    && now - PeriodStart(anchor, interval, now) <= WINDOW_MS
    && (last.Some? ==> last.value < PeriodStart(anchor, interval, now))
  }

  lemma {:induction false} FiresEveryIsShouldFire(everyMs: nat, anchorMs: Option<nat>, last: Option<int>, now: int,
                                                  matches: string -> bool)
    requires 0 < everyMs < 0x8000_0000_0000_0000 && anchorMs.GetOr(0) < 0x8000_0000_0000_0000
    ensures ShouldFire(Every(everyMs, anchorMs), last, now, matches)
       <==> FiresEvery(anchorMs.GetOr(0), everyMs, last, now)
  {
    assert AsI64(everyMs) == everyMs && AsI64(anchorMs.GetOr(0)) == anchorMs.GetOr(0);
  }

  lemma {:induction false} PeriodBounds(anchor: int, interval: int, now: int)
    requires interval > 0
    ensures var start := anchor + Period(anchor, interval, now) * interval; start <= now < start + interval
  {
  }

  /** From the anchor on, the source fires exactly when the job is due. */
  lemma {:induction false} FiresWhenDue(anchor: int, interval: int, last: Option<int>, now: int)
    requires interval > 0 && now >= anchor
    ensures FiresEvery(anchor, interval, last, now) <==> Due(anchor, interval, last, now)
  {
  }

  /** Before the anchor truncation puts the period start at or after `now`, so the job fires
      whenever 55 seconds have passed since its last run. */
  lemma {:induction false} BeforeAnchorOnlyGuard(anchor: int, interval: int, last: Option<int>, now: int)
    requires interval > 0 && now < anchor
    ensures FiresEvery(anchor, interval, last, now) <==> GuardPasses(last, now)
  {
    var before := anchor - now;
    NegatedProduct(before / interval, interval);
    assert before / interval * interval + before % interval == before;
  }

  /** The source decides rightly, firing exactly when the job is due, if and only if the
      anchor has come, or the guard forbids firing anyway, or the time happens to lie in the
      first 45 seconds of its period. */
  lemma {:induction false} FiresWhenDueIff(anchor: int, interval: int, last: Option<int>, now: int)
    requires interval > 0
    ensures (FiresEvery(anchor, interval, last, now) <==> Due(anchor, interval, last, now))
       <==> (|| now >= anchor
             || !GuardPasses(last, now)
             || now - (anchor + Period(anchor, interval, now) * interval) <= WINDOW_MS)
  {
    if now >= anchor {
      FiresWhenDue(anchor, interval, last, now);
    } else {
      BeforeAnchorOnlyGuard(anchor, interval, last, now);
    }
  }

  lemma {:induction false} NegatedProduct(a: int, b: int)
    ensures (-a) * b == -(a * b)
  {
  }

  /** A time within [start, start + interval) of period n is in period n. */
  lemma {:induction false} PeriodAt(anchor: int, interval: int, n: int, now: int)
    requires interval > 0
    requires anchor + n * interval <= now < anchor + n * interval + interval
    ensures Period(anchor, interval, now) == n
  {
    var q := (now - anchor) / interval;
    var r := (now - anchor) % interval;
    assert q * interval + r == now - anchor;
    if q < n {
      ProductMonotonic(q + 1, n, interval);
    } else if q > n {
      ProductMonotonic(n + 1, q, interval);
    }
  }

  lemma {:induction false} ProductMonotonic(a: int, b: int, c: int)
    requires a <= b && c > 0
    ensures a * c <= b * c
  {
  }

  /** So a job with a one-hour interval fires a minute before its anchor, and twice in the
      same hour, although it is due at neither time. */
  lemma {:induction false} FiresBeforeItsAnchor()
    ensures FiresEvery(7_200_000, 3_600_000, None, 7_000_000) && !Due(7_200_000, 3_600_000, None, 7_000_000)
    ensures FiresEvery(7_200_000, 3_600_000, Some(7_000_000), 7_060_000)
  {
    assert TruncDiv(7_000_000 - 7_200_000, 3_600_000) == 0;
    assert Period(7_200_000, 3_600_000, 7_000_000) == -1;
  }

  // ----- Runs of the executor -----

  /** The job fires in the k-th tick of a run that starts with an empty table. */
  predicate FiresAt(anchor: int, interval: int, ticks: seq<int>, k: nat)
    requires interval > 0 && k < |ticks|
    decreases k, 1
  {
    FiresEvery(anchor, interval, LastBefore(anchor, interval, ticks, k), ticks[k])
  }

  /** The job's entry in the last-run table before the k-th tick. */
  function LastBefore(anchor: int, interval: int, ticks: seq<int>, k: nat): Option<int>
    requires interval > 0 && k <= |ticks|
    decreases k, 0
  {
    if k == 0 then None
    else if FiresAt(anchor, interval, ticks, k - 1) then Some(ticks[k - 1])
    else LastBefore(anchor, interval, ticks, k - 1)
  }

  /** The last-run table before the k-th tick; the jobs are read anew in every tick. */
  function TableBefore(jobs: nat -> seq<Job>, ticks: seq<int>, matches: nat -> string -> bool, k: nat): map<string, int>
    requires k <= |ticks|
  {
    if k == 0 then map[]
    else AfterJobs(jobs(k - 1), TableBefore(jobs, ticks, matches, k - 1), ticks[k - 1], matches(k - 1))
  }

  /** The job stands at place j of the list, and no other there has its id. */
  predicate Listed(jobs: seq<Job>, job: Job, j: nat) {
    j < |jobs| && jobs[j] == job && forall i :: 0 <= i < |jobs| && i != j ==> jobs[i].id != job.id
  }

  /** In a run of the executor an enabled `every` job that keeps its own id fires in just
      the ticks FiresAt says, whatever the other jobs do, come and go. */
  lemma {:induction false} JobRunsAlone(jobs: nat -> seq<Job>, job: Job, place: nat -> nat, ticks: seq<int>,
                                        matches: nat -> string -> bool, k: nat)
    requires k < |ticks| && forall t :: 0 <= t <= k ==> Listed(jobs(t), job, place(t))
    requires job.enabled && job.isAgentTurn && job.schedule.Every?
    requires 0 < job.schedule.everyMs < 0x8000_0000_0000_0000
    requires job.schedule.anchorMs.GetOr(0) < 0x8000_0000_0000_0000
    ensures var anchor := job.schedule.anchorMs.GetOr(0);
            var interval := job.schedule.everyMs;
            && LastRun(TableBefore(jobs, ticks, matches, k), job.id) == LastBefore(anchor, interval, ticks, k)
            && (place(k) in FiredJobs(jobs(k), TableBefore(jobs, ticks, matches, k), ticks[k], matches(k))
                <==> FiresAt(anchor, interval, ticks, k))
    decreases k
  {
    var anchor := job.schedule.anchorMs.GetOr(0);
    var interval := job.schedule.everyMs;
    if k > 0 {
      var table := TableBefore(jobs, ticks, matches, k - 1);
      JobRunsAlone(jobs, job, place, ticks, matches, k - 1);
      assert Listed(jobs(k - 1), job, place(k - 1));
      JobsAreIndependent(jobs(k - 1), table, ticks[k - 1], matches(k - 1), place(k - 1));
      FiresEveryIsShouldFire(interval, job.schedule.anchorMs, LastBefore(anchor, interval, ticks, k - 1),
                             ticks[k - 1], matches(k - 1));
    }
    assert Listed(jobs(k), job, place(k));
    JobsAreIndependent(jobs(k), TableBefore(jobs, ticks, matches, k), ticks[k], matches(k), place(k));
    FiresEveryIsShouldFire(interval, job.schedule.anchorMs, LastBefore(anchor, interval, ticks, k),
                           ticks[k], matches(k));
  }

  /** The clock does not go back, and has passed the anchor. */
  predicate ClockFrom(anchor: int, ticks: seq<int>) {
    && (forall i :: 0 <= i < |ticks| ==> anchor <= ticks[i])
    && Ordered(ticks)
  }

  /** The table holds the latest firing tick. */
  lemma {:induction false} LastBeforeIsLatest(anchor: int, interval: int, ticks: seq<int>, k: nat) returns (i: int)
    requires interval > 0 && k <= |ticks|
    ensures var last := LastBefore(anchor, interval, ticks, k);
            if last.None? then i == -1
            else 0 <= i < k && FiresAt(anchor, interval, ticks, i) && last.value == ticks[i]
    ensures forall j :: i < j < k ==> !FiresAt(anchor, interval, ticks, j)
    decreases k
  {
    if k == 0 {
      i := -1;
    } else if FiresAt(anchor, interval, ticks, k - 1) {
      i := k - 1;
    } else {
      i := LastBeforeIsLatest(anchor, interval, ticks, k - 1);
    }
  }

  predicate Ordered(ticks: seq<int>) {
    forall i, j :: 0 <= i <= j < |ticks| ==> ticks[i] <= ticks[j]
  }

  /** Two firings of a job are at least 55 seconds apart, before the anchor as after it. */
  lemma {:induction false} FiringsKeepGuard(anchor: int, interval: int, ticks: seq<int>, i: nat, j: nat)
    requires interval > 0 && Ordered(ticks)
    requires i < j < |ticks| && FiresAt(anchor, interval, ticks, i) && FiresAt(anchor, interval, ticks, j)
    ensures ticks[j] - ticks[i] >= GUARD_MS
  {
    var latest := LastBeforeIsLatest(anchor, interval, ticks, j);
    assert latest >= i;
    assert ticks[i] <= ticks[latest];
  }

  /** From the anchor on, they are also in different periods. */
  lemma {:induction false} FiringsAreApart(anchor: int, interval: int, ticks: seq<int>, i: nat, j: nat)
    requires interval > 0 && ClockFrom(anchor, ticks)
    requires i < j < |ticks| && FiresAt(anchor, interval, ticks, i) && FiresAt(anchor, interval, ticks, j)
    ensures ticks[j] - ticks[i] >= GUARD_MS
    ensures Period(anchor, interval, ticks[i]) < Period(anchor, interval, ticks[j])
  {
    FiringsKeepGuard(anchor, interval, ticks, i, j);
    var latest := LastBeforeIsLatest(anchor, interval, ticks, j);
    assert latest >= i;
    FiresWhenDue(anchor, interval, LastBefore(anchor, interval, ticks, j), ticks[j]);
    PeriodBounds(anchor, interval, ticks[i]);
    var p, q := Period(anchor, interval, ticks[i]), Period(anchor, interval, ticks[j]);
    if q <= p {
      ProductMonotonic(q, p, interval);
    }
  }

  /** The executor is awake around the start of period n: tick k is the first at or after
      it, there is one before, and no two consecutive ticks are more than 45 seconds
      apart. */
  predicate Observes(anchor: int, interval: int, ticks: seq<int>, k: nat, n: nat)
    requires interval > 0
  {
    && ClockFrom(anchor, ticks)
    && (forall i :: 0 < i < |ticks| ==> ticks[i] - ticks[i - 1] <= 45_000)
    && 0 < k < |ticks|
    && ticks[k - 1] < anchor + n * interval <= ticks[k]
  }

  lemma {:induction false} LastFiredEarly(anchor: int, interval: int, ticks: seq<int>, k: nat, n: nat, i: nat)
    requires interval > 0 && Observes(anchor, interval, ticks, k, n) && i < k
    requires FiresAt(anchor, interval, ticks, i)
    ensures ticks[i] <= anchor + n * interval - interval + WINDOW_MS
  {
    FiresWhenDue(anchor, interval, LastBefore(anchor, interval, ticks, i), ticks[i]);
    PeriodBounds(anchor, interval, ticks[i]);
    var p := Period(anchor, interval, ticks[i]);
    if p >= n {
      ProductMonotonic(n, p, interval);
    } else {
      ProductMonotonic(p, n - 1, interval);
    }
  }

  /** With periods of at least 100 seconds, the first tick of an observed period fires. */
  lemma {:induction false} FirstTickFires(anchor: int, interval: int, ticks: seq<int>, k: nat, n: nat)
    requires interval >= 100_000 && Observes(anchor, interval, ticks, k, n)
    ensures FiresAt(anchor, interval, ticks, k) && Period(anchor, interval, ticks[k]) == n
  {
    assert ticks[k] - ticks[k - 1] <= 45_000;
    PeriodAt(anchor, interval, n, ticks[k]);
    var i := LastBeforeIsLatest(anchor, interval, ticks, k);
    if i >= 0 {
      LastFiredEarly(anchor, interval, ticks, k, n, i);
      assert ticks[i] <= ticks[k - 1];
    }
    FiresWhenDue(anchor, interval, LastBefore(anchor, interval, ticks, k), ticks[k]);
  }

  /** So it fires exactly once in every observed period, at once. */
  lemma {:induction false} FiresExactlyOnce(anchor: int, interval: int, ticks: seq<int>, k: nat, n: nat)
    requires interval >= 100_000 && Observes(anchor, interval, ticks, k, n)
    ensures FiresAt(anchor, interval, ticks, k) && Period(anchor, interval, ticks[k]) == n
    ensures forall j :: 0 <= j < |ticks| && j != k && FiresAt(anchor, interval, ticks, j) ==>
              Period(anchor, interval, ticks[j]) != n
  {
    FirstTickFires(anchor, interval, ticks, k, n);
    forall j | 0 <= j < |ticks| && j != k && FiresAt(anchor, interval, ticks, j)
      ensures Period(anchor, interval, ticks[j]) != n
    {
      if j < k {
        FiringsAreApart(anchor, interval, ticks, j, k);
      } else {
        FiringsAreApart(anchor, interval, ticks, k, j);
      }
    }
  }

  ghost predicate AlwaysPrompt(anchor: int, interval: int)
    requires interval > 0
  {
    forall ticks: seq<int>, k: nat, n: nat ::
      Observes(anchor, interval, ticks, k, n) ==> FiresAt(anchor, interval, ticks, k)
  }

  lemma {:induction false} FirstPeriodStart(anchor: int, interval: int, now: int)
    requires interval > 0
    ensures anchor <= now < anchor + interval ==> PeriodStart(anchor, interval, now) == anchor
    ensures now == anchor + interval ==> PeriodStart(anchor, interval, now) == now
  {
  }

  /** A run in which a shorter interval misses the first tick of its second period: the
      job fires as late as it may in the first one, less than 55 seconds before. */
  lemma {:induction false} ShortIntervalsMiss(anchor: int, interval: int)
    requires 0 < interval < 100_000
    ensures !AlwaysPrompt(anchor, interval)
  {
    var late := if interval <= 45_000 then anchor else anchor + 45_000;
    var ticks := if interval <= 90_000 then [late, anchor + interval]
                 else [late, anchor + 90_000, anchor + interval];
    var k := |ticks| - 1;
    FirstPeriodStart(anchor, interval, late);
    FirstPeriodStart(anchor, interval, anchor + 90_000);
    FirstPeriodStart(anchor, interval, anchor + interval);
    assert FiresAt(anchor, interval, ticks, 0);
    assert LastBefore(anchor, interval, ticks, 1) == Some(late);
    if k == 2 {
      assert !FiresAt(anchor, interval, ticks, 1);
      assert LastBefore(anchor, interval, ticks, 2) == Some(late);
    }
    assert !FiresAt(anchor, interval, ticks, k);
    assert anchor + 1 * interval == anchor + interval;
    assert Observes(anchor, interval, ticks, k, 1);
  }

  /** 100 seconds is exactly the interval from which on the first tick of every observed
      period fires. */
  lemma {:induction false} PromptIff(anchor: int, interval: int)
    requires interval > 0
    ensures AlwaysPrompt(anchor, interval) <==> interval >= 100_000
  {
    if interval >= 100_000 {
      forall ticks: seq<int>, k: nat, n: nat | Observes(anchor, interval, ticks, k, n)
        ensures FiresAt(anchor, interval, ticks, k)
      {
        FirstTickFires(anchor, interval, ticks, k, n);
      }
    } else {
      ShortIntervalsMiss(anchor, interval);
    }
  }

  // ----- Once, if not at once -----

  /** An observed period in which a later tick follows the first. */
  predicate ObservesTwice(anchor: int, interval: int, ticks: seq<int>, k: nat, n: nat)
    requires interval > 0
  {
    Observes(anchor, interval, ticks, k, n) && k + 1 < |ticks| && ticks[k] < ticks[k + 1]
  }

  predicate FiresIn(anchor: int, interval: int, ticks: seq<int>, n: nat, j: nat)
    requires interval > 0
  {
    j < |ticks| && FiresAt(anchor, interval, ticks, j) && Period(anchor, interval, ticks[j]) == n
  }

  /** With periods of at least 99.999 seconds, one of the first two ticks of the period fires. */
  lemma {:induction false} FirstOrSecondFires(anchor: int, interval: int, ticks: seq<int>, k: nat, n: nat)
    requires interval >= 99_999 && ObservesTwice(anchor, interval, ticks, k, n)
    ensures FiresIn(anchor, interval, ticks, n, k) || FiresIn(anchor, interval, ticks, n, k + 1)
  {
    assert ticks[k] - ticks[k - 1] <= 45_000;
    PeriodAt(anchor, interval, n, ticks[k]);
    FiresWhenDue(anchor, interval, LastBefore(anchor, interval, ticks, k), ticks[k]);
    var i := LastBeforeIsLatest(anchor, interval, ticks, k);
    if !FiresAt(anchor, interval, ticks, k) {
      assert i >= 0;
      LastFiredEarly(anchor, interval, ticks, k, n, i);
      SecondTickFires(anchor, interval, ticks, k, n, i);
    }
  }

  /** The first tick of the period came too soon after the last firing, to the millisecond. */
  lemma {:induction false} SecondTickFires(anchor: int, interval: int, ticks: seq<int>, k: nat, n: nat, i: nat)
    requires interval >= 99_999 && ObservesTwice(anchor, interval, ticks, k, n) && i < k
    requires !FiresAt(anchor, interval, ticks, k) && LastBefore(anchor, interval, ticks, k) == Some(ticks[i])
    requires ticks[i] <= anchor + n * interval - interval + WINDOW_MS
    ensures FiresIn(anchor, interval, ticks, n, k + 1)
  {
    var start := anchor + n * interval;
    assert ticks[k] - ticks[k - 1] <= 45_000 && ticks[i] <= ticks[k - 1];
    PeriodAt(anchor, interval, n, ticks[k]);
    FiresWhenDue(anchor, interval, LastBefore(anchor, interval, ticks, k), ticks[k]);
    assert ticks[k] - ticks[i] < GUARD_MS;
    assert ticks[k] == start;
    assert ticks[k + 1] - ticks[k] <= 45_000;
    PeriodAt(anchor, interval, n, ticks[k + 1]);
    FiresWhenDue(anchor, interval, LastBefore(anchor, interval, ticks, k + 1), ticks[k + 1]);
  }

  lemma {:induction false} FiresOnce(anchor: int, interval: int, ticks: seq<int>, n: nat, i: nat, j: nat)
    requires interval > 0 && ClockFrom(anchor, ticks)
    requires FiresIn(anchor, interval, ticks, n, i) && FiresIn(anchor, interval, ticks, n, j)
    ensures i == j
  {
    if i < j {
      FiringsAreApart(anchor, interval, ticks, i, j);
    } else if j < i {
      FiringsAreApart(anchor, interval, ticks, j, i);
    }
  }

  /** Every observed period with a second tick has exactly one firing. */
  ghost predicate AlwaysOnce(anchor: int, interval: int)
    requires interval > 0
  {
    forall ticks: seq<int>, k: nat, n: nat :: ObservesTwice(anchor, interval, ticks, k, n) ==>
      ExactlyOne(anchor, interval, ticks, n)
  }

  ghost predicate ExactlyOne(anchor: int, interval: int, ticks: seq<int>, n: nat)
    requires interval > 0
  {
    && (exists j: nat :: FiresIn(anchor, interval, ticks, n, j))
    && (forall i: nat, j: nat ::
          FiresIn(anchor, interval, ticks, n, i) && FiresIn(anchor, interval, ticks, n, j) ==> i == j)
  }

  /** A run in which no tick of the second period fires: the first one is too close to the
      last firing, and the next comes after the first 45 seconds, or after the period. */
  function MissedRun(anchor: int, interval: int): seq<int> {
    if interval <= 45_000 then [anchor, anchor + interval, anchor + 2 * interval]
    else if interval <= 89_999 then [anchor + 45_000, anchor + interval + 1, anchor + interval + 45_001]
    else [anchor + 45_000, anchor + 89_999, anchor + interval + 1, anchor + interval + 45_001]
  }

  lemma {:induction false} MissedRunIsObserved(anchor: int, interval: int)
    requires 0 < interval <= 99_998
    ensures var ticks := MissedRun(anchor, interval); ObservesTwice(anchor, interval, ticks, |ticks| - 2, 1)
  {
    assert anchor + 1 * interval == anchor + interval;
  }

  lemma {:induction false} ShorterIntervalsSkip(anchor: int, interval: int)
    requires 0 < interval <= 99_998
    ensures !AlwaysOnce(anchor, interval)
  {
    var ticks := MissedRun(anchor, interval);
    MissedRunIsObserved(anchor, interval);
    forall j: nat ensures !FiresIn(anchor, interval, ticks, 1, j) {
      if j < |ticks| {
        MissedRunMisses(anchor, interval, j);
      }
    }
    assert !ExactlyOne(anchor, interval, ticks, 1);
  }

  lemma {:induction false} MissedRunMisses(anchor: int, interval: int, j: nat)
    requires 0 < interval <= 99_998 && j < |MissedRun(anchor, interval)|
    ensures !FiresIn(anchor, interval, MissedRun(anchor, interval), 1, j)
  {
    var ticks := MissedRun(anchor, interval);
    PeriodBounds(anchor, interval, ticks[j]);
    if Period(anchor, interval, ticks[j]) == 1 {
      FirstTickOfMissedRun(anchor, interval);
      FiresWhenDue(anchor, interval, LastBefore(anchor, interval, ticks, j), ticks[j]);
      assert 1 * interval == interval;
      assert j >= 1;
      assert LastBefore(anchor, interval, ticks, 1) == Some(ticks[0]);
      if j >= 2 {
        FiresWhenDue(anchor, interval, Some(ticks[0]), ticks[1]);
        SecondTickBlocked(anchor, interval);
        assert LastBefore(anchor, interval, ticks, 2) == Some(ticks[0]);
      }
      if j >= 3 {
        ThirdTickBlocked(anchor, interval);
        assert LastBefore(anchor, interval, ticks, 3) == Some(ticks[0]);
      }
    }
  }

  lemma {:induction false} FirstTickOfMissedRun(anchor: int, interval: int)
    requires 0 < interval <= 99_998
    ensures FiresAt(anchor, interval, MissedRun(anchor, interval), 0)
  {
    var first := MissedRun(anchor, interval)[0];
    assert anchor + 0 * interval <= first < anchor + 0 * interval + interval;
    PeriodAt(anchor, interval, 0, first);
    FiresWhenDue(anchor, interval, None, first);
  }

  lemma {:induction false} SecondTickBlocked(anchor: int, interval: int)
    requires 0 < interval <= 99_998
    ensures !FiresAt(anchor, interval, MissedRun(anchor, interval), 1)
  {
    FirstTickOfMissedRun(anchor, interval);
    assert LastBefore(anchor, interval, MissedRun(anchor, interval), 1) == Some(MissedRun(anchor, interval)[0]);
  }

  lemma {:induction false} ThirdTickBlocked(anchor: int, interval: int)
    requires 90_000 <= interval <= 99_998
    ensures !FiresAt(anchor, interval, MissedRun(anchor, interval), 2)
  {
    SecondTickBlocked(anchor, interval);
    FirstTickOfMissedRun(anchor, interval);
    assert LastBefore(anchor, interval, MissedRun(anchor, interval), 1) == Some(MissedRun(anchor, interval)[0]);
    assert LastBefore(anchor, interval, MissedRun(anchor, interval), 2) == Some(MissedRun(anchor, interval)[0]);
  }

  /** 99.999 seconds is exactly the interval from which on a job fires once in every
      observed period with a second tick. */
  lemma {:induction false} OnceIff(anchor: int, interval: int)
    requires interval > 0
    ensures AlwaysOnce(anchor, interval) <==> interval >= 99_999
  {
    if interval >= 99_999 {
      forall ticks: seq<int>, k: nat, n: nat | ObservesTwice(anchor, interval, ticks, k, n)
        ensures ExactlyOne(anchor, interval, ticks, n)
      {
        FirstOrSecondFires(anchor, interval, ticks, k, n);
        forall i: nat, j: nat | FiresIn(anchor, interval, ticks, n, i) && FiresIn(anchor, interval, ticks, n, j)
          ensures i == j
        {
          FiresOnce(anchor, interval, ticks, n, i, j);
        }
      }
    } else {
      ShorterIntervalsSkip(anchor, interval);
    }
  }

  // ----- Which jobs fire at all -----

  /** A cron-expression job fires exactly when its expression matches and the guard passes. */
  lemma {:induction false} CronExprFiresIff(job: Job, lastRun: map<string, int>, now: int, matches: string -> bool)
    requires job.enabled && job.isAgentTurn && job.schedule.CronExpr?
    ensures Fires(job, lastRun, now, matches)
       <==> matches(job.schedule.expr) && (job.id in lastRun ==> now - lastRun[job.id] >= 55_000)
  {
  }

  /** Only enabled agent-turn jobs fire, and the table changes for the jobs that fire only. */
  lemma {:induction false} OnlyEligibleFire(jobs: seq<Job>, lastRun: map<string, int>, now: int,
                                            matches: string -> bool, k: nat)
    requires k in FiredJobs(jobs, lastRun, now, matches)
    ensures k < |jobs| && jobs[k].enabled && jobs[k].isAgentTurn
    ensures jobs[k].id in AfterJobs(jobs, lastRun, now, matches)
    ensures AfterJobs(jobs, lastRun, now, matches)[jobs[k].id] == now
    decreases |jobs|
  {
    var n := |jobs| - 1;
    if k in FiredJobs(jobs[..n], lastRun, now, matches) {
      OnlyEligibleFire(jobs[..n], lastRun, now, matches, k);
    }
  }
}
