/** crates/openclaw-gateway/src/discord.rs, run_gateway_loop: reconnects for ever, except
    after a fatal close or when nobody reads the messages any more. */
module DiscordReconnect {
  import opened Common
  import opened DiscordGateway

  /** One pass of the loop. `startedAt` is the session's start, or None if connecting, the hello
      or sending the opening message failed; `lasted` and `overslept` are milliseconds. */
  datatype Connection = Connection(
    startedAt: Option<int>,
    events: seq<Event>,
    lasted: nat,
    overslept: nat,
    receiverGone: bool
  )

  datatype Opening = Identify | ResumeSession(sessionId: string, sequence: nat)

  /** What a connection attempt says first, and to which address (None: the configured one). */
  datatype Attempt = Attempt(opening: Opening, url: Option<string>)

  datatype Pause = AfterClean(secs: nat) | AfterError(secs: nat)

  /** `delay` is the next back-off in seconds. */
  datatype Loop = Loop(running: bool, delay: nat, resume: Option<Resume>)

  const START := Loop(true, 1, None)

  // ----- One pass -----

  function AttemptOf(resume: Option<Resume>): Attempt {
    match resume
    case None => Attempt(Identify, None)
    case Some(r) => Attempt(ResumeSession(r.sessionId, r.sequence), r.url)
  }

  /** How the session ended (None: it is still running), and what it left to resume. */
  function Outcome(resume: Option<Resume>, c: Connection): (Option<End>, Option<Resume>) {
    if c.startedAt.None? then (Some(Failed), resume)
    else
      match AfterEvents(resume, c.startedAt.value, c.events)
      case Running(_, _) => (None, resume)
      case Ended(end, r, _) => (Some(end), r)
  }

  /** Whole seconds since the pass began, the sleep included. */
  function Elapsed(c: Connection, slept: nat): nat {
    (c.lasted + 1000 * slept + c.overslept) / 1000
  }

  function Next(loop: Loop, c: Connection): Loop {
    var (end, resume) := Outcome(loop.resume, c);
    if end == None || end == Some(Fatal) then Loop(false, loop.delay, resume)
    else if end == Some(Clean) then Loop(!c.receiverGone, if Elapsed(c, 5) > 30 then 1 else loop.delay, resume)
    else
      Loop(!c.receiverGone,
           if Elapsed(c, loop.delay) > 60 then 1 else Min(2 * loop.delay, MAX_DELAY_SECS),
           if end == Some(Invalid) then None else resume)
  }

  function PauseOf(loop: Loop, c: Connection): seq<Pause> {
    match Outcome(loop.resume, c).0
    case None => []
    case Some(Fatal) => []
    case Some(Clean) => [AfterClean(5)]
    case Some(_) => [AfterError(loop.delay)]
  }

  // ----- Runs -----

  function After(cs: seq<Connection>): Loop {
    if cs == [] then START
    else
      var before := After(cs[..|cs| - 1]);
      if before.running then Next(before, cs[|cs| - 1]) else before
  }

  function Attempts(cs: seq<Connection>): seq<Attempt> {
    if cs == [] then []
    else
      var before := After(cs[..|cs| - 1]);
      Attempts(cs[..|cs| - 1]) + if before.running then [AttemptOf(before.resume)] else []
  }

  function Pauses(cs: seq<Connection>): seq<Pause> {
    if cs == [] then []
    else
      var before := After(cs[..|cs| - 1]);
      Pauses(cs[..|cs| - 1]) + if before.running then PauseOf(before, cs[|cs| - 1]) else []
  }

  method RunLoop(cs: seq<Connection>) returns (attempts: seq<Attempt>, slept: seq<Pause>)
    ensures attempts == Attempts(cs) && slept == Pauses(cs)
  {
    var reconnectDelay: nat := 1;
    var resumeState: Option<Resume> := None;
    attempts, slept := [], [];
    for i := 0 to |cs|
      invariant After(cs[..i]) == Loop(true, reconnectDelay, resumeState)
      invariant attempts == Attempts(cs[..i]) && slept == Pauses(cs[..i])
    {
      var c := cs[i];
      OnePass(cs, i);
      attempts := attempts + [AttemptOf(resumeState)];
      var end := Some(Failed);
      if c.startedAt.Some? {
        var out;
        end, resumeState, out := RunSession(resumeState, c.startedAt.value, c.events);
      }
      match end {
        case None =>
          return;
        case Some(Fatal) =>
          return;
        case Some(Clean) =>
          slept := slept + [AfterClean(5)];
          if Elapsed(c, 5) > 30 {
            reconnectDelay := 1;
          }
        case Some(_) =>
          if end == Some(Invalid) {
            resumeState := None;
          }
          slept := slept + [AfterError(reconnectDelay)];
          var elapsed := Elapsed(c, reconnectDelay);
          reconnectDelay := Min(reconnectDelay * 2, MAX_DELAY_SECS);
          if elapsed > 60 {
            reconnectDelay := 1;
          }
      }
      if c.receiverGone {
        return;
      }
    }
    assert cs[..|cs|] == cs;
  }

  lemma {:induction false} OnePass(cs: seq<Connection>, i: nat)
    requires i < |cs| && After(cs[..i]).running
    ensures var before := After(cs[..i]);
            && After(cs[..i + 1]) == Next(before, cs[i])
            && Attempts(cs[..i + 1]) == Attempts(cs[..i]) + [AttemptOf(before.resume)]
            && Pauses(cs[..i + 1]) == Pauses(cs[..i]) + PauseOf(before, cs[i])
            && (!Next(before, cs[i]).running ==>
                  Attempts(cs) == Attempts(cs[..i + 1]) && Pauses(cs) == Pauses(cs[..i + 1]))
  {
    assert cs[..i + 1][..i] == cs[..i];
    if !Next(After(cs[..i]), cs[i]).running {
      StoppedForGood(cs, i + 1);
    }
  }

  /** Once stopped, the loop never connects or sleeps again. */
  lemma {:induction false} StoppedForGood(cs: seq<Connection>, n: nat)
    requires n <= |cs| && !After(cs[..n]).running
    ensures After(cs) == After(cs[..n]) && Attempts(cs) == Attempts(cs[..n]) && Pauses(cs) == Pauses(cs[..n])
    decreases |cs| - n
  {
    if n == |cs| {
      assert cs[..n] == cs;
    } else {
      assert cs[..n + 1][..n] == cs[..n];
      assert Attempts(cs[..n]) + [] == Attempts(cs[..n]) && Pauses(cs[..n]) + [] == Pauses(cs[..n]);
      StoppedForGood(cs, n + 1);
    }
  }

  // ----- What a resume may name -----

  ghost predicate Announced(events: seq<Event>, sessionId: string) {
    exists e :: e in events && e.Payload? && e.body.Ready? && e.body.session == Some(sessionId)
  }

  ghost predicate Received(events: seq<Event>, sequence: nat) {
    exists e :: e in events && e.Payload? && e.s == Some(sequence)
  }

  ghost predicate Grounded(events: seq<Event>, r: Resume) {
    Announced(events, r.sessionId) && Received(events, r.sequence)
  }

  lemma {:induction false} LastIsAnnounced(events: seq<Event>)
    ensures LastAnnounced(events).Some? ==> Announced(events, LastAnnounced(events).value)
    ensures LastSequence(events).Some? ==> Received(events, LastSequence(events).value)
    decreases |events|
  {
    if events != [] {
      var e := events[|events| - 1];
      LastIsAnnounced(events[..|events| - 1]);
      assert e in events && forall x :: x in events[..|events| - 1] ==> x in events;
    }
  }

  lemma {:induction false} GroundedInMore(a: seq<Event>, b: seq<Event>, sessionId: string, sequence: nat)
    ensures Announced(a, sessionId) || Announced(b, sessionId) ==> Announced(a + b, sessionId)
    ensures Received(a, sequence) || Received(b, sequence) ==> Received(a + b, sequence)
  {
    assert forall e :: e in a || e in b ==> e in a + b;
  }

  /** The event that ends a session names no session; it may carry a last sequence number. */
  lemma {:induction false} LastEventLeaves(resume: Option<Resume>, live: Live, out: seq<Output>, seen: seq<Event>,
                                           e: Event)
    requires React(resume, live, out, e).Ended?
    requires live.sequence == OrElse(LastSequence(seen), SequenceOf(resume))
    requires live.sessionId == OrElse(LastAnnounced(seen), SessionOf(resume))
    requires live.resumeUrl == LastUrl(seen)
    ensures var left := React(resume, live, out, e).resume;
            left == None || left == resume || IsLatest(resume, seen + [e], left.value)
  {
    assert (seen + [e])[..|seen|] == seen;
  }

  /** What a session leaves to resume: what it started from, nothing, or the latest session
      id and sequence number it knows, with the address its own READY gave. */
  lemma {:induction false} WhatIsLeft(resume: Option<Resume>, start: int, events: seq<Event>)
    requires AfterEvents(resume, start, events).Ended?
    ensures var left := AfterEvents(resume, start, events).resume;
            left == None || left == resume || IsLatest(resume, Seen(resume, start, events), left.value)
    decreases |events|
  {
    var k := |events| - 1;
    var before := AfterEvents(resume, start, events[..k]);
    if before.Ended? {
      WhatIsLeft(resume, start, events[..k]);
    } else {
      LiveIsLatest(resume, start, events[..k]);
      LastEventLeaves(resume, before.live, before.out, events[..k], events[k]);
      SeenWhileRunning(resume, start, events[..k]);
    }
  }

  predicate IsLatest(resume: Option<Resume>, seen: seq<Event>, r: Resume) {
    && Some(r.sessionId) == OrElse(LastAnnounced(seen), SessionOf(resume))
    && Some(r.sequence) == OrElse(LastSequence(seen), SequenceOf(resume))
    && r.url == LastUrl(seen)
  }

  function SeenIn(resume: Option<Resume>, c: Connection): seq<Event> {
    if c.startedAt.None? then [] else Seen(resume, c.startedAt.value, c.events)
  }

  /** Everything read since the last connection that identified afresh. */
  function Epoch(cs: seq<Connection>): seq<Event> {
    if cs == [] then []
    else
      var before := After(cs[..|cs| - 1]);
      (if before.resume.None? then [] else Epoch(cs[..|cs| - 1])) + SeenIn(before.resume, cs[|cs| - 1])
  }

  /** What an earlier connection may have left, given what has been read in its epoch. */
  ghost predicate Sound(resume: Option<Resume>, epoch: seq<Event>) {
    resume.Some? ==> Grounded(epoch, resume.value) && !Sees(epoch, IsInvalidation)
  }

  lemma {:induction false} LatestIsGrounded(resume: Option<Resume>, epoch: seq<Event>, seen: seq<Event>, r: Resume)
    requires resume.Some? ==> Grounded(epoch, resume.value)
    requires Some(r) == resume || IsLatest(resume, seen, r)
    ensures Grounded(epoch + seen, r)
  {
    LastIsAnnounced(seen);
    GroundedInMore(epoch, seen, r.sessionId, r.sequence);
  }

  lemma {:induction false} OneConnectionIsSound(loop: Loop, epoch: seq<Event>, c: Connection)
    requires Sound(loop.resume, epoch) && (loop.resume.None? ==> epoch == []) && Next(loop, c).running
    ensures Sound(Next(loop, c).resume, epoch + SeenIn(loop.resume, c))
  {
    match Outcome(loop.resume, c).0
    case Some(Clean) => OutcomeIsSound(loop.resume, epoch, c);
    case Some(Failed) => OutcomeIsSound(loop.resume, epoch, c);
    case Some(Invalid) =>
    case Some(Fatal) =>
    case None =>
  }

  lemma {:induction false} OutcomeIsSound(resume: Option<Resume>, epoch: seq<Event>, c: Connection)
    requires Sound(resume, epoch) && (resume.None? ==> epoch == [])
    requires Outcome(resume, c).0 == Some(Clean) || Outcome(resume, c).0 == Some(Failed)
    ensures Sound(Outcome(resume, c).1, epoch + SeenIn(resume, c))
  {
    var seen, left := SeenIn(resume, c), Outcome(resume, c).1;
    if c.startedAt.Some? {
      EndTellsWhatWasSeen(resume, c.startedAt.value, c.events);
      WhatIsLeft(resume, c.startedAt.value, c.events);
    }
    assert !Sees(epoch, IsInvalidation) && !Sees(seen, IsInvalidation);
    if left.Some? {
      LatestIsGrounded(resume, epoch, seen, left.value);
      NeitherSees(epoch, seen, IsInvalidation);
    }
  }

  lemma {:induction false} NeitherSees(a: seq<Event>, b: seq<Event>, p: Event -> bool)
    requires !Sees(a, p) && !Sees(b, p)
    ensures !Sees(a + b, p)
  {
    assert forall e :: e in a + b ==> e in a || e in b;
  }

  /** In every run: what would be resumed next was announced, and its sequence number
      received, since the last fresh identification, and nothing has invalidated it since. */
  lemma {:induction false} ResumeIsGrounded(cs: seq<Connection>)
    requires After(cs).running
    ensures Sound(After(cs).resume, Epoch(cs))
    decreases |cs|
  {
    if cs != [] {
      var k := |cs| - 1;
      var before := After(cs[..k]);
      ResumeIsGrounded(cs[..k]);
      OneConnectionIsSound(before, if before.resume.None? then [] else Epoch(cs[..k]), cs[k]);
    }
  }

  lemma {:induction false} AttemptAt(cs: seq<Connection>, i: nat)
    requires i < |Attempts(cs)|
    ensures |Attempts(cs)| <= |cs| && After(cs[..i]).running
    ensures Attempts(cs)[i] == AttemptOf(After(cs[..i]).resume)
    ensures After(cs).running ==> |Attempts(cs)| == |cs|
    decreases |cs|
  {
    var k := |cs| - 1;
    if i < |Attempts(cs[..k])| {
      AttemptAt(cs[..k], i);
      assert cs[..k][..i] == cs[..i];
    } else {
      AttemptCount(cs[..k]);
    }
    AttemptCount(cs);
  }

  lemma {:induction false} AttemptCount(cs: seq<Connection>)
    ensures |Attempts(cs)| <= |cs| && (After(cs).running ==> |Attempts(cs)| == |cs|)
    decreases |cs|
  {
    if cs != [] {
      AttemptCount(cs[..|cs| - 1]);
    }
  }

  /** Every Resume ever sent names a session and a sequence number of its own epoch. */
  lemma {:induction false} EveryResumeIsGrounded(cs: seq<Connection>, i: nat)
    requires i < |Attempts(cs)| && Attempts(cs)[i].opening.ResumeSession?
    ensures i <= |cs|
    ensures var r := Attempts(cs)[i].opening;
            && Announced(Epoch(cs[..i]), r.sessionId) && Received(Epoch(cs[..i]), r.sequence)
            && !Sees(Epoch(cs[..i]), IsInvalidation)
  {
    AttemptAt(cs, i);
    ResumeIsGrounded(cs[..i]);
  }

  /** Whether the next connection resumes: once something can be resumed it stays so until
      the server invalidates it, even if the server calls the session resumable. */
  lemma {:induction false} ResumesUntilInvalidated(cs: seq<Connection>, c: Connection)
    requires After(cs).running && After(cs + [c]).running
    ensures Sees(SeenIn(After(cs).resume, c), IsInvalidation) ==> After(cs + [c]).resume == None
    ensures After(cs).resume.Some? ==>
              (After(cs + [c]).resume == None <==> Sees(SeenIn(After(cs).resume, c), IsInvalidation))
  {
    assert (cs + [c])[..|cs|] == cs;
    if c.startedAt.Some? {
      EndTellsWhatWasSeen(After(cs).resume, c.startedAt.value, c.events);
      if After(cs).resume.Some? && AfterEvents(After(cs).resume, c.startedAt.value, c.events).Ended? {
        NothingElseForgets(After(cs).resume, c.startedAt.value, c.events);
      }
    }
  }

  lemma {:induction false} NothingElseForgets(resume: Option<Resume>, start: int, events: seq<Event>)
    requires resume.Some? && AfterEvents(resume, start, events).Ended?
    ensures AfterEvents(resume, start, events).end != Invalid ==> AfterEvents(resume, start, events).resume.Some?
    decreases |events|
  {
    if AfterEvents(resume, start, events[..|events| - 1]).Ended? {
      NothingElseForgets(resume, start, events[..|events| - 1]);
    }
  }

  /** After a fatal close there is no further connection and no pause. */
  lemma {:induction false} FatalCloseIsLast(cs: seq<Connection>, c: Connection, more: seq<Connection>)
    requires After(cs).running && Sees(SeenIn(After(cs).resume, c), IsFatalClose)
    ensures Attempts(cs + [c] + more) == Attempts(cs + [c])
    ensures Pauses(cs + [c] + more) == Pauses(cs)
    ensures |Attempts(cs + [c])| == |cs| + 1
  {
    assert (cs + [c])[..|cs|] == cs;
    EndTellsWhatWasSeen(After(cs).resume, c.startedAt.value, c.events);
    assert (cs + [c] + more)[..|cs| + 1] == cs + [c];
    StoppedForGood(cs + [c] + more, |cs| + 1);
    AttemptCount(cs);
  }

  // ----- Where a resume connects -----

  /** The session of this connection ended by storing its state. */
  predicate StoresAtEnd(resume: Option<Resume>, c: Connection) {
    c.startedAt.Some? &&
    var seen := SeenIn(resume, c);
    seen != [] && StoresState(c.startedAt.value, seen[..|seen| - 1], seen[|seen| - 1])
  }

  /** What a session reads before the event that ends it leaves it running. */
  lemma {:induction false} SeenUntilEnd(resume: Option<Resume>, start: int, events: seq<Event>)
    requires AfterEvents(resume, start, events).Ended?
    ensures var seen := Seen(resume, start, events);
            && seen != []
            && AfterEvents(resume, start, seen[..|seen| - 1]).Running?
            && AfterEvents(resume, start, seen) == AfterEvents(resume, start, events)
    decreases |events|
  {
    var k := |events| - 1;
    if AfterEvents(resume, start, events[..k]).Ended? {
      SeenUntilEnd(resume, start, events[..k]);
    } else {
      SeenWhileRunning(resume, start, events[..k]);
      TakeAll(events);
      TakeSnoc(events, k);
    }
  }

  lemma {:induction false} AddressAfter(resume: Option<Resume>, c: Connection)
    requires Outcome(resume, c).0.Some? && Outcome(resume, c).1.Some?
    ensures if StoresAtEnd(resume, c) then Outcome(resume, c).1.value.url == LastUrl(SeenIn(resume, c))
            else Outcome(resume, c).1 == resume
  {
    if c.startedAt.Some? {
      var start, seen := c.startedAt.value, SeenIn(resume, c);
      SeenUntilEnd(resume, start, c.events);
      var k := |seen| - 1;
      TakeAll(seen);
      TakeSnoc(seen, k);
      AddressLeft(resume, start, seen[..k], seen[k]);
      if StoresAtEnd(resume, c) {
        assert LastUrl(seen) == LastUrl(seen[..k]);
      }
    }
  }

  /** The address of every attempt but the first: a resume goes to the address announced in
      the connection before, or to the configured one if that announced none, when that
      connection ended by storing its state; otherwise it goes where that one went. */
  lemma {:induction false} NextAddress(cs: seq<Connection>, i: nat)
    requires i + 1 < |Attempts(cs)|
    ensures i < |cs|
    ensures var resume := After(cs[..i]).resume;
            Attempts(cs)[i + 1].url ==
              if Attempts(cs)[i + 1].opening.Identify? then None
              else if StoresAtEnd(resume, cs[i]) then LastUrl(SeenIn(resume, cs[i]))
              else Attempts(cs)[i].url
  {
    AttemptAt(cs, i);
    AttemptAt(cs, i + 1);
    assert cs[..i + 1][..i] == cs[..i];
    var before, next := After(cs[..i]), After(cs[..i + 1]);
    assert next == Next(before, cs[i]);
    if next.resume.Some? {
      AddressAfter(before.resume, cs[i]);
    }
  }

  const READY: Event := Payload(0, Some(1), Ready(Some("s"), Some("wss://r")))

  /** A connection that announces a session and an address, and then loses its stream. */
  const ANNOUNCES := Connection(Some(0), [READY, StreamEnd], 0, 0, false)

  const LOSES_STREAM := Connection(Some(0), [StreamEnd], 0, 0, false)

  const CANNOT_CONNECT := Connection(None, [], 0, 0, false)

  /** So one address can be used for several resumes in a row, if connecting fails, and is
      forgotten by a resumed session that loses its stream. */
  lemma {:induction false} AddressUsedTwiceOrForgotten()
    ensures var resume, url := ResumeSession("s", 1), Some(FullUrl("wss://r"));
            && Attempts([ANNOUNCES, CANNOT_CONNECT, CANNOT_CONNECT])
               == [Attempt(Identify, None), Attempt(resume, url), Attempt(resume, url)]
            && Attempts([ANNOUNCES, LOSES_STREAM, CANNOT_CONNECT])
               == [Attempt(Identify, None), Attempt(resume, url), Attempt(resume, None)]
  {
    FirstConnection();
    SecondConnection(CANNOT_CONNECT);
    SecondConnection(LOSES_STREAM);
    assert [StreamEnd][..0] == [];
  }

  lemma {:induction false} FirstConnection()
    ensures After([ANNOUNCES]) == Loop(true, 1, Some(Resume("s", 1, Some(FullUrl("wss://r")))))
    ensures Attempts([ANNOUNCES]) == [Attempt(Identify, None)]
  {
    var url := Some(FullUrl("wss://r"));
    assert [READY, StreamEnd][..1] == [READY] && [READY][..0] == [];
    assert AfterEvents(None, 0, [READY]) == Running(Live(Some(1), Some("s"), url, 0, false), []);
    assert AfterEvents(None, 0, [READY, StreamEnd]) == Ended(Clean, Some(Resume("s", 1, url)), []);
    assert Outcome(None, ANNOUNCES) == (Some(Clean), Some(Resume("s", 1, url)));
    assert [ANNOUNCES][..0] == [];
    assert Attempts([]) + [Attempt(Identify, None)] == [Attempt(Identify, None)];
  }

  lemma {:induction false} SecondConnection(c: Connection)
    ensures var before := After([ANNOUNCES]);
            && After([ANNOUNCES, c]) == Next(before, c)
            && Attempts([ANNOUNCES, c]) == [Attempt(Identify, None), AttemptOf(before.resume)]
            && Attempts([ANNOUNCES, c, CANNOT_CONNECT])
               == [Attempt(Identify, None), AttemptOf(before.resume)]
                  + if Next(before, c).running then [AttemptOf(Next(before, c).resume)] else []
  {
    FirstConnection();
    assert [ANNOUNCES, c][..1] == [ANNOUNCES];
    assert [ANNOUNCES, c, CANNOT_CONNECT][..2] == [ANNOUNCES, c];
  }

  // ----- The back-off -----

  const DELAYS: set<nat> := {1, 2, 4, 8, 16, 32, 64}

  /** The delay never leaves this set; the cap of 120 seconds is never slept, because a
      64-second sleep alone already counts as a healthy minute. */
  lemma {:induction false} DelaysAreSmallPowers(cs: seq<Connection>, i: nat)
    requires i < |Pauses(cs)|
    ensures After(cs).delay in DELAYS
    ensures Pauses(cs)[i] == AfterClean(5) || (Pauses(cs)[i].AfterError? && Pauses(cs)[i].secs in DELAYS)
    decreases |cs|
  {
    var k := |cs| - 1;
    DelayIsSmallPower(cs);
    DelayIsSmallPower(cs[..k]);
    if i < |Pauses(cs[..k])| {
      DelaysAreSmallPowers(cs[..k], i);
    }
  }

  lemma {:induction false} DelayIsSmallPower(cs: seq<Connection>)
    ensures After(cs).delay in DELAYS
    decreases |cs|
  {
    if cs != [] {
      DelayIsSmallPower(cs[..|cs| - 1]);
    }
  }

  function Pow2(n: nat): nat {
    if n == 0 then 1 else 2 * Pow2(n - 1)
  }

  /** The connection cannot be opened, or its session soon ends in an error that is not fatal. */
  predicate FailsQuickly(resume: Option<Resume>, c: Connection) {
    && (Outcome(resume, c).0 == Some(Failed) || Outcome(resume, c).0 == Some(Invalid))
    && c.lasted + c.overslept < 29_000 && !c.receiverGone
  }

  predicate AllFailQuickly(cs: seq<Connection>) {
    cs != [] ==>
      var k := |cs| - 1;
      AllFailQuickly(cs[..k]) && FailsQuickly(After(cs[..k]).resume, cs[k])
  }

  /** While connections keep failing quickly the pauses run 1, 2, 4, 8, 16, 32, 64 and start over. */
  lemma {:induction false} BackOffStartsOver(cs: seq<Connection>, i: nat)
    requires AllFailQuickly(cs) && i < |cs|
    ensures |Pauses(cs)| == |cs| && Pauses(cs)[i] == AfterError(Pow2(i % 7))
    decreases |cs|
  {
    var k := |cs| - 1;
    QuickFailures(cs[..k]);
    QuickFailure(After(cs[..k]), cs[k]);
    if i < k {
      BackOffStartsOver(cs[..k], i);
    }
  }

  lemma {:induction false} QuickFailures(cs: seq<Connection>)
    requires AllFailQuickly(cs)
    ensures After(cs).running && After(cs).delay == Pow2(|cs| % 7) && |Pauses(cs)| == |cs|
    ensures After(cs).delay <= 32 || After(cs).delay == 64
    decreases |cs|
  {
    if cs != [] {
      var k := |cs| - 1;
      QuickFailures(cs[..k]);
      NextPower(|cs|, After(cs[..k]).delay);
      QuickFailure(After(cs[..k]), cs[k]);
      NextPower(|cs| + 1, After(cs).delay);
    }
  }

  lemma {:induction false} QuickFailure(loop: Loop, c: Connection)
    requires loop.running && FailsQuickly(loop.resume, c) && (loop.delay <= 32 || loop.delay == 64)
    ensures Next(loop, c).running && Next(loop, c).delay == if loop.delay == 64 then 1 else 2 * loop.delay
    ensures PauseOf(loop, c) == [AfterError(loop.delay)]
  {
  }

  lemma {:induction false} NextPower(n: nat, delay: nat)
    requires n > 0 && delay == Pow2((n - 1) % 7)
    ensures (delay <= 32 || delay == 64) && Pow2(n % 7) == if delay == 64 then 1 else 2 * delay
  {
    assert n % 7 == if (n - 1) % 7 == 6 then 0 else (n - 1) % 7 + 1;
    assert Pow2(1) == 2 && Pow2(2) == 4 && Pow2(3) == 8;
    assert Pow2(4) == 16 && Pow2(5) == 32 && Pow2(6) == 64;
  }

  // ----- The delay after a session -----

  /** An error is followed by a pause of the delay and a clean end by one of 5 seconds.
      After an error the delay doubles, up to 120 seconds, unless the pass took over a minute
      with its pause, which starts it over; after a clean end it stays, unless the pass took
      more than half a minute with its pause of 5 seconds. Times are milliseconds. */
  lemma {:induction false} DelayAfter(loop: Loop, c: Connection)
    requires Outcome(loop.resume, c).0.Some?
    ensures var end, next := Outcome(loop.resume, c).0.value, Next(loop, c).delay;
            && (end == Failed || end == Invalid ==>
                  && PauseOf(loop, c) == [AfterError(loop.delay)]
                  && if c.lasted + c.overslept + 1000 * loop.delay >= 61_000 then next == 1
                  else next == Min(2 * loop.delay, 120))
            && (end == Clean ==>
                  && PauseOf(loop, c) == [AfterClean(5)]
                  && next == if c.lasted + c.overslept + 5000 >= 31_000 then 1 else loop.delay)
  {
  }
}
