/** crates/openclaw-agent/src/watchdog.rs: cancels an agent that shows no activity for too
    long, or that has run for too long altogether. Times are milliseconds of one clock. */
module Watchdog {
  import opened Common

  datatype Reason = Idle | WallClock

  /** What the background loop has come to. */
  datatype Verdict = Watching | StoppedQuietly | Fired(reason: Reason)

  class ActivityWatchdog {
    const idleTimeout: nat
    const maxWallClock: nat
    /** When the background loop was started. */
    const start: int
    var lastActivity: int
    var cancelled: bool
    var verdict: Verdict

    /** `created` is when the watchdog was made, `start` when its loop was spawned. */
    constructor (idleTimeout: nat, maxWallClock: nat, created: int, start: int)
      ensures this.idleTimeout == idleTimeout && this.maxWallClock == maxWallClock && this.start == start
      ensures Current() == State(created, false, Watching)
    {
      this.idleTimeout := idleTimeout;
      this.maxWallClock := maxWallClock;
      this.start := start;
      lastActivity, cancelled, verdict := created, false, Watching;
    }

    function Current(): State
      reads this
    {
      State(lastActivity, cancelled, verdict)
    }

    method Touch(now: int)
      modifies this
      ensures Current() == Step(idleTimeout, maxWallClock, start, old(Current()), Touched(now))
    {
      lastActivity := now;
    }

    /** Someone else cancels the shared token. */
    method Cancel()
      modifies this
      ensures Current() == Step(idleTimeout, maxWallClock, start, old(Current()), CancelledOutside)
    {
      cancelled := true;
    }

    /** One turn of the background loop, after its sleep. */
    method CheckOnce(now: int)
      modifies this
      ensures Current() == Step(idleTimeout, maxWallClock, start, old(Current()), Checked(now))
    {
      if verdict != Watching {
        return;
      }
      if cancelled {
        verdict := StoppedQuietly;
        return;
      }
      var idle := Max(now - lastActivity, 0);
      if idle > idleTimeout {
        cancelled := true;
        verdict := Fired(Idle);
        return;
      }
      if now - start > maxWallClock {
        cancelled := true;
        verdict := Fired(WallClock);
      }
    }
  }

  // ----- Runs -----

  datatype State = State(last: int, cancelled: bool, verdict: Verdict)

  datatype Event = Touched(at: int) | CancelledOutside | Checked(at: int)

  function Step(idle: nat, wall: nat, start: int, s: State, e: Event): State {
    match e
    case Touched(at) => s.(last := at)
    case CancelledOutside => s.(cancelled := true)
    case Checked(at) =>
      if s.verdict != Watching then s
      else if s.cancelled then s.(verdict := StoppedQuietly)
      else if Max(at - s.last, 0) > idle then s.(cancelled := true, verdict := Fired(Idle))
      else if at - start > wall then s.(cancelled := true, verdict := Fired(WallClock))
      else s
  }

  function After(idle: nat, wall: nat, start: int, created: int, events: seq<Event>): State {
    if events == [] then State(created, false, Watching)
    else Step(idle, wall, start, After(idle, wall, start, created, events[..|events| - 1]), events[|events| - 1])
  }

  /** The last sign of life among the events, or the creation. */
  function LastTouch(created: int, events: seq<Event>): int {
    if events == [] then created
    else if events[|events| - 1].Touched? then events[|events| - 1].at
    else LastTouch(created, events[..|events| - 1])
  }

  /** A check at the end of these events would find the agent within both limits. */
  predicate Alive(idle: nat, wall: nat, start: int, created: int, events: seq<Event>, at: int) {
    at - LastTouch(created, events) <= idle && at - start <= wall
  }

  /** The first check that finds the agent cancelled or beyond a limit. */
  ghost predicate Decides(idle: nat, wall: nat, start: int, created: int, events: seq<Event>, i: nat)
    requires i < |events|
  {
    events[i].Checked?
    && (CancelledOutside in events[..i] || !Alive(idle, wall, start, created, events[..i], events[i].at))
  }

  lemma {:induction false} LastIsLastTouch(idle: nat, wall: nat, start: int, created: int, events: seq<Event>)
    ensures After(idle, wall, start, created, events).last == LastTouch(created, events)
    decreases |events|
  {
    if events != [] {
      LastIsLastTouch(idle, wall, start, created, events[..|events| - 1]);
    }
  }

  /** Whether a check decides depends on the events before it only. */
  lemma {:induction false} DecidesByPast(idle: nat, wall: nat, start: int, created: int, events: seq<Event>, k: nat)
    requires k <= |events|
    ensures forall i :: 0 <= i < k ==> (Decides(idle, wall, start, created, events, i)
                                   <==> Decides(idle, wall, start, created, events[..k], i))
  {
    forall i | 0 <= i < k
      ensures Decides(idle, wall, start, created, events, i) <==> Decides(idle, wall, start, created, events[..k], i)
    {
      assert events[..k][..i] == events[..i];
    }
  }

  /** In every run the loop goes on exactly while every check has found the agent alive and
      not cancelled, and until then the token is cancelled only if someone else did it. */
  lemma {:induction false} WatchingIff(idle: nat, wall: nat, start: int, created: int, events: seq<Event>)
    ensures var s := After(idle, wall, start, created, events);
            && (s.verdict == Watching
                <==> forall i :: 0 <= i < |events| ==> !Decides(idle, wall, start, created, events, i))
            && (s.verdict == Watching ==> (s.cancelled <==> CancelledOutside in events))
    decreases |events|
  {
    if events != [] {
      var k := |events| - 1;
      WatchingIff(idle, wall, start, created, events[..k]);
      DecidesByPast(idle, wall, start, created, events, k);
      LastIsLastTouch(idle, wall, start, created, events[..k]);
      assert events == events[..k] + [events[k]];
      assert After(idle, wall, start, created, events[..k]).verdict == Watching
         ==> (Decides(idle, wall, start, created, events, k)
              <==> After(idle, wall, start, created, events).verdict != Watching);
    }
  }

  /** The deciding check: what it says, whatever happens afterwards. */
  lemma {:induction false} VerdictIs(idle: nat, wall: nat, start: int, created: int, events: seq<Event>, i: nat)
    requires i < |events| && Decides(idle, wall, start, created, events, i)
    requires forall j :: 0 <= j < i ==> !Decides(idle, wall, start, created, events, j)
    ensures var s := After(idle, wall, start, created, events);
            var at := events[i].at;
            && s.cancelled
            && s.verdict == (if CancelledOutside in events[..i] then StoppedQuietly
                             else if at - LastTouch(created, events[..i]) > idle then Fired(Idle)
                             else Fired(WallClock))
    decreases |events|
  {
    var k := |events| - 1;
    DecidesByPast(idle, wall, start, created, events, k);
    if i < k {
      assert events[..k][..i] == events[..i];
      VerdictIs(idle, wall, start, created, events[..k], i);
    } else {
      WatchingIff(idle, wall, start, created, events[..k]);
      LastIsLastTouch(idle, wall, start, created, events[..k]);
    }
  }

  /** The last activity is the one before event i, or one after it. */
  lemma {:induction false} LastTouchSince(created: int, events: seq<Event>, i: nat, at: int)
    requires i < |events| && !events[i].Touched?
    requires forall j :: i < j < |events| && events[j].Touched? ==> events[j].at >= at
    ensures LastTouch(created, events) == LastTouch(created, events[..i]) || LastTouch(created, events) >= at
    decreases |events|
  {
    var k := |events| - 1;
    if i < k && !events[k].Touched? {
      assert events[..k][..i] == events[..i];
      LastTouchSince(created, events[..k], i, at);
    }
  }

  /** No agent outlives its limits by more than the time since the last check: while the
      loop is watching, whatever the agent does, no moment within `gap` of a check is more
      than `gap` past the overall limit; nor, if the clock of the activities does not go
      back behind the check, more than `gap` past the idle limit since the last activity. */
  lemma {:induction false} StoppedInTime(idle: nat, wall: nat, start: int, created: int, events: seq<Event>, i: nat,
                                         at: int, gap: nat)
    requires After(idle, wall, start, created, events).verdict == Watching
    requires i < |events| && events[i].Checked? && at - events[i].at <= gap
    ensures at - start <= wall + gap
    ensures (forall j :: i < j < |events| && events[j].Touched? ==> events[j].at >= events[i].at)
        ==> at - LastTouch(created, events) <= idle + gap
  {
    WatchingIff(idle, wall, start, created, events);
    assert !Decides(idle, wall, start, created, events, i);
    if forall j :: i < j < |events| && events[j].Touched? ==> events[j].at >= events[i].at {
      LastTouchSince(created, events, i, events[i].at);
    }
  }
}
