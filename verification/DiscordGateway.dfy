/** crates/openclaw-gateway/src/discord.rs: the Discord connection. Each WebSocket session
    identifies afresh or resumes an earlier session; the loop around it reconnects with a
    back-off. Times inside a session are milliseconds. */
module DiscordGateway {
  import opened Common

  const ACK_TIMEOUT_MS := 45_000
  const MAX_DELAY_SECS: nat := 120

  /** What is remembered between sessions. */
  datatype Resume = Resume(sessionId: string, sequence: nat, url: Option<string>)

  datatype Body =
    | Ready(session: Option<string>, url: Option<string>)
    | Message(bot: bool, text: string)
    | OtherDispatch
    | HeartbeatAck
    | ReconnectRequest
    | InvalidSession(resumable: bool)
    | OtherOp

  /** What the session's select loop wakes up for. `sent` says whether the heartbeat could be sent. */
  datatype Event =
    | Beat(at: int, sent: bool)
    | Payload(at: int, s: Option<nat>, body: Body)
    | CloseFrame(code: nat)
    | CloseWithoutCode
    | Unreadable
    | SocketError
    | StreamEnd

  datatype End = Clean | Fatal | Invalid | Failed

  datatype Output = Heartbeat(sequence: Option<nat>) | Forward(text: string)

  // ----- One session -----

  datatype Live = Live(sequence: Option<nat>, sessionId: Option<string>, resumeUrl: Option<string>,
                       lastAck: int, awaitingAck: bool)

  datatype Session =
    | Running(live: Live, out: seq<Output>)
    | Ended(end: End, resume: Option<Resume>, out: seq<Output>)

  function SessionOf(resume: Option<Resume>): Option<string> {
    if resume.Some? then Some(resume.value.sessionId) else None
  }

  function SequenceOf(resume: Option<Resume>): Option<nat> {
    if resume.Some? then Some(resume.value.sequence) else None
  }

  function Opened(resume: Option<Resume>, at: int): Live {
    Live(SequenceOf(resume), SessionOf(resume), None, at, false)
  }

  /** A session can be resumed only once both its id and a sequence number are known. */
  function SaveSession(resume: Option<Resume>, sessionId: Option<string>, sequence: Option<nat>,
                       url: Option<string>): Option<Resume>
  {
    if sessionId.Some? && sequence.Some? then Some(Resume(sessionId.value, sequence.value, url)) else resume
  }

  function Saved(resume: Option<Resume>, live: Live): Option<Resume> {
    SaveSession(resume, live.sessionId, live.sequence, live.resumeUrl)
  }

  predicate IsFatalCode(code: nat) {
    code == 4004 || 4010 <= code <= 4014
  }

  function FullUrl(url: string): string {
    url + "/?v=10&encoding=json"
  }

  function OrElse<T>(a: Option<T>, b: Option<T>): Option<T> {
    if a.Some? then a else b
  }

  function React(resume: Option<Resume>, live: Live, out: seq<Output>, e: Event): Session {
    match e
    case Beat(at, sent) =>
      if live.awaitingAck && at - live.lastAck > ACK_TIMEOUT_MS then Ended(Failed, Saved(resume, live), out)
      else if sent then Running(live.(awaitingAck := true), out + [Heartbeat(live.sequence)])
      else Ended(Failed, resume, out)
    case Payload(at, s, body) => ReactToPayload(resume, live.(sequence := OrElse(s, live.sequence)), out, at, body)
    case CloseFrame(code) =>
      if IsFatalCode(code) then Ended(Fatal, resume, out) else Ended(Clean, Saved(resume, live), out)
    case CloseWithoutCode => Ended(Clean, resume, out)
    case Unreadable => Running(live, out)
    case SocketError => Ended(Failed, resume, out)
    case StreamEnd => Ended(Clean, Saved(resume, live), out)
  }

  function ReactToPayload(resume: Option<Resume>, live: Live, out: seq<Output>, at: int, body: Body): Session {
    match body
    case Ready(session, url) =>
      var fullUrl := if url.Some? then Some(FullUrl(url.value)) else None;
      Running(live.(sessionId := OrElse(session, live.sessionId), resumeUrl := OrElse(fullUrl, live.resumeUrl)), out)
    case Message(bot, text) => Running(live, if bot then out else out + [Forward(text)])
    case HeartbeatAck => Running(live.(lastAck := at, awaitingAck := false), out)
    case ReconnectRequest => Ended(Failed, Saved(resume, live), out)
    case InvalidSession(resumable) => Ended(Invalid, if resumable then resume else None, out)
    case _ => Running(live, out)
  }

  function AfterEvents(resume: Option<Resume>, start: int, events: seq<Event>): Session {
    if events == [] then Running(Opened(resume, start), [])
    else
      var before := AfterEvents(resume, start, events[..|events| - 1]);
      if before.Ended? then before else React(resume, before.live, before.out, events[|events| - 1])
  }

  method RunSession(resume: Option<Resume>, start: int, events: seq<Event>)
    returns (end: Option<End>, resumeState: Option<Resume>, out: seq<Output>)
    ensures match AfterEvents(resume, start, events)
            case Ended(e, r, o) => end == Some(e) && resumeState == r && out == o
            case Running(_, o) => end == None && resumeState == resume && out == o
  {
    resumeState, out := resume, [];
    var sequence, sessionId := SequenceOf(resume), SessionOf(resume);
    var resumeUrl: Option<string> := None;
    var lastAck, awaitingAck := start, false;
    for i := 0 to |events|
      invariant resumeState == resume
      invariant AfterEvents(resume, start, events[..i])
             == Running(Live(sequence, sessionId, resumeUrl, lastAck, awaitingAck), out)
    {
      OneEvent(resume, start, events, i);
      match events[i] {
        case Beat(at, sent) =>
          if awaitingAck && at - lastAck > ACK_TIMEOUT_MS {
            resumeState := SaveSession(resumeState, sessionId, sequence, resumeUrl);
            return Some(Failed), resumeState, out;
          }
          if !sent {
            return Some(Failed), resumeState, out;
          }
          out := out + [Heartbeat(sequence)];
          awaitingAck := true;
        case CloseFrame(code) =>
          if IsFatalCode(code) {
            return Some(Fatal), resumeState, out;
          }
          resumeState := SaveSession(resumeState, sessionId, sequence, resumeUrl);
          return Some(Clean), resumeState, out;
        case CloseWithoutCode =>
          return Some(Clean), resumeState, out;
        case SocketError =>
          return Some(Failed), resumeState, out;
        case StreamEnd =>
          resumeState := SaveSession(resumeState, sessionId, sequence, resumeUrl);
          return Some(Clean), resumeState, out;
        case Unreadable =>
        case Payload(at, s, body) =>
          if s.Some? {
            sequence := s;
          }
          match body {
            case Ready(session, url) =>
              if session.Some? {
                sessionId := session;
              }
              if url.Some? {
                resumeUrl := Some(FullUrl(url.value));
              }
            case Message(bot, text) =>
              if bot {
                continue;
              }
              out := out + [Forward(text)];
            case HeartbeatAck =>
              lastAck := at;
              awaitingAck := false;
            case ReconnectRequest =>
              resumeState := SaveSession(resumeState, sessionId, sequence, resumeUrl);
              return Some(Failed), resumeState, out;
            case InvalidSession(resumable) =>
              if !resumable {
                resumeState := None;
              }
              return Some(Invalid), resumeState, out;
            case OtherDispatch =>
            case OtherOp =>
          }
      }
    }
    end := None;
    assert events[..|events|] == events;
  }

  /** One turn of the session's loop. */
  lemma {:induction false} OneEvent(resume: Option<Resume>, start: int, events: seq<Event>, i: nat)
    requires i < |events| && AfterEvents(resume, start, events[..i]).Running?
    ensures var before := AfterEvents(resume, start, events[..i]);
            var after := React(resume, before.live, before.out, events[i]);
            && (after.Running? ==> AfterEvents(resume, start, events[..i + 1]) == after)
            && (after.Ended? ==> AfterEvents(resume, start, events) == after)
  {
    assert events[..i + 1][..i] == events[..i];
    AfterEnd(resume, start, events, i + 1);
  }

  /** A session that has ended reads nothing more. */
  lemma {:induction false} AfterEnd(resume: Option<Resume>, start: int, events: seq<Event>, n: nat)
    requires n <= |events|
    ensures AfterEvents(resume, start, events[..n]).Ended?
        ==> AfterEvents(resume, start, events) == AfterEvents(resume, start, events[..n])
    decreases |events| - n
  {
    if n == |events| {
      assert events[..n] == events;
    } else {
      assert events[..n + 1][..n] == events[..n];
      AfterEnd(resume, start, events, n + 1);
    }
  }

  // ----- What a session knows, told by its history -----

  function LastSequence(events: seq<Event>): Option<nat> {
    if events == [] then None
    else
      var e := events[|events| - 1];
      if e.Payload? && e.s.Some? then e.s else LastSequence(events[..|events| - 1])
  }

  function LastAnnounced(events: seq<Event>): Option<string> {
    if events == [] then None
    else
      var e := events[|events| - 1];
      if e.Payload? && e.body.Ready? && e.body.session.Some? then e.body.session
      else LastAnnounced(events[..|events| - 1])
  }

  function LastUrl(events: seq<Event>): Option<string> {
    if events == [] then None
    else
      var e := events[|events| - 1];
      if e.Payload? && e.body.Ready? && e.body.url.Some? then Some(FullUrl(e.body.url.value))
      else LastUrl(events[..|events| - 1])
  }

  /** The time of the last acknowledgement, or of the session's start. */
  function LastAckAt(start: int, events: seq<Event>): int {
    if events == [] then start
    else
      var e := events[|events| - 1];
      if e.Payload? && e.body.HeartbeatAck? then e.at else LastAckAt(start, events[..|events| - 1])
  }

  /** A heartbeat has been sent since the last acknowledgement. */
  predicate Unanswered(events: seq<Event>) {
    events != [] &&
    var e := events[|events| - 1];
    e.Beat? || (!(e.Payload? && e.body.HeartbeatAck?) && Unanswered(events[..|events| - 1]))
  }

  /** In every running session. */
  lemma {:induction false} LiveIsLatest(resume: Option<Resume>, start: int, events: seq<Event>)
    requires AfterEvents(resume, start, events).Running?
    ensures var live := AfterEvents(resume, start, events).live;
            && live.sequence == OrElse(LastSequence(events), SequenceOf(resume))
            && live.sessionId == OrElse(LastAnnounced(events), SessionOf(resume))
            && live.resumeUrl == LastUrl(events)
            && live.lastAck == LastAckAt(start, events)
            && live.awaitingAck == Unanswered(events)
    decreases |events|
  {
    if events != [] {
      LiveIsLatest(resume, start, events[..|events| - 1]);
    }
  }

  /** A heartbeat has been unanswered for too long. */
  predicate TimesOut(start: int, events: seq<Event>, at: int) {
    Unanswered(events) && at - LastAckAt(start, events) > ACK_TIMEOUT_MS
  }

  /** A heartbeat timer gives up on the connection exactly when a heartbeat is unanswered and
      the last acknowledgement is more than 45 seconds old, or when the heartbeat cannot be
      sent; otherwise the heartbeat carries the last sequence number received, or before
      the first one the number of the session resumed. */
  lemma {:induction false} BeatGivesUpIff(resume: Option<Resume>, start: int, events: seq<Event>, at: int, sent: bool)
    requires AfterEvents(resume, start, events).Running?
    ensures var next := AfterEvents(resume, start, events + [Beat(at, sent)]);
            && (next.Ended? <==> TimesOut(start, events, at) || !sent)
            && (next.Ended? ==> next.end == Failed)
            && (next.Running? ==> next.out == AfterEvents(resume, start, events).out
                                             + [Heartbeat(OrElse(LastSequence(events), SequenceOf(resume)))])
  {
    LiveIsLatest(resume, start, events);
    assert (events + [Beat(at, sent)])[..|events|] == events;
  }

  // ----- What an ending session leaves -----

  /** The events after which a session stores what it knows for a resume. */
  predicate StoresState(start: int, events: seq<Event>, e: Event) {
    match e
    case Beat(at, _) => TimesOut(start, events, at)
    case CloseFrame(code) => !IsFatalCode(code)
    case Payload(_, _, body) => body.ReconnectRequest?
    case StreamEnd => true
    case _ => false
  }

  /** If the event ends the session and something can be resumed afterwards, its address is
      the one this very session announced, or none, when the event stores the state, and
      otherwise the address that was there before. */
  lemma {:induction false} AddressLeft(resume: Option<Resume>, start: int, events: seq<Event>, e: Event)
    requires AfterEvents(resume, start, events).Running?
    ensures var next := AfterEvents(resume, start, events + [e]);
            next.Ended? && next.resume.Some? ==>
              if StoresState(start, events, e) then next.resume.value.url == LastUrl(events)
              else next.resume == resume
  {
    LiveIsLatest(resume, start, events);
    assert (events + [e])[..|events|] == events;
  }

  /** The events a session reads before it ends. */
  function Seen(resume: Option<Resume>, start: int, events: seq<Event>): seq<Event> {
    if events == [] then []
    else
      var k := |events| - 1;
      var before := Seen(resume, start, events[..k]);
      if AfterEvents(resume, start, events[..k]).Ended? then before else before + [events[k]]
  }

  lemma {:induction false} SeenWhileRunning(resume: Option<Resume>, start: int, events: seq<Event>)
    requires AfterEvents(resume, start, events).Running?
    ensures Seen(resume, start, events) == events
    decreases |events|
  {
    if events != [] {
      SeenWhileRunning(resume, start, events[..|events| - 1]);
      assert events == events[..|events| - 1] + [events[|events| - 1]];
    }
  }

  predicate IsInvalidation(e: Event) {
    e.Payload? && e.body.InvalidSession?
  }

  predicate IsFatalClose(e: Event) {
    e.CloseFrame? && IsFatalCode(e.code)
  }

  predicate Sees(events: seq<Event>, p: Event -> bool) {
    exists e :: e in events && p(e)
  }

  lemma {:induction false} SeesSnoc(events: seq<Event>, e: Event, p: Event -> bool)
    ensures Sees(events + [e], p) <==> Sees(events, p) || p(e)
  {
    assert forall x :: x in events + [e] <==> x in events || x == e;
  }

  /** A session ends as invalid, or fatally, exactly when it reads such an event. */
  lemma {:induction false} EndTellsWhatWasSeen(resume: Option<Resume>, start: int, events: seq<Event>)
    ensures var session := AfterEvents(resume, start, events);
            var seen := Seen(resume, start, events);
            && (Sees(seen, IsInvalidation) <==> session.Ended? && session.end == Invalid)
            && (Sees(seen, IsFatalClose) <==> session.Ended? && session.end == Fatal)
    decreases |events|
  {
    if events != [] {
      var k := |events| - 1;
      EndTellsWhatWasSeen(resume, start, events[..k]);
      if AfterEvents(resume, start, events[..k]).Running? {
        SeesSnoc(Seen(resume, start, events[..k]), events[k], IsInvalidation);
        SeesSnoc(Seen(resume, start, events[..k]), events[k], IsFatalClose);
      }
    }
  }

  // ----- What a session forwards, and how a close ends it -----

  /** The texts among the outputs. */
  function Forwarded(out: seq<Output>): seq<string> {
    if out == [] then []
    else
      var o := out[|out| - 1];
      Forwarded(out[..|out| - 1]) + if o.Forward? then [o.text] else []
  }

  /** The messages people wrote, in order. */
  function HumanTexts(events: seq<Event>): seq<string> {
    if events == [] then []
    else
      var e := events[|events| - 1];
      HumanTexts(events[..|events| - 1])
      + if e.Payload? && e.body.Message? && !e.body.bot then [e.body.text] else []
  }

  lemma {:induction false} ForwardedSnoc(out: seq<Output>, o: Output)
    ensures Forwarded(out + [o]) == Forwarded(out) + if o.Forward? then [o.text] else []
  {
    assert (out + [o])[..|out|] == out;
  }

  /** A session forwards exactly the messages of people it reads, in order. */
  lemma {:induction false} ForwardsHumans(resume: Option<Resume>, start: int, events: seq<Event>)
    ensures Forwarded(AfterEvents(resume, start, events).out) == HumanTexts(Seen(resume, start, events))
    decreases |events|
  {
    if events != [] {
      var k := |events| - 1;
      var before := AfterEvents(resume, start, events[..k]);
      ForwardsHumans(resume, start, events[..k]);
      if before.Running? {
        OneEventForwards(resume, before.live, before.out, events[k]);
        HumanTextsSnoc(Seen(resume, start, events[..k]), events[k]);
      }
    }
  }

  lemma {:induction false} HumanTextsSnoc(events: seq<Event>, e: Event)
    ensures HumanTexts(events + [e])
         == HumanTexts(events) + if e.Payload? && e.body.Message? && !e.body.bot then [e.body.text] else []
  {
    assert (events + [e])[..|events|] == events;
  }

  lemma {:induction false} OneEventForwards(resume: Option<Resume>, live: Live, out: seq<Output>, e: Event)
    ensures Forwarded(React(resume, live, out, e).out)
         == Forwarded(out) + if e.Payload? && e.body.Message? && !e.body.bot then [e.body.text] else []
  {
    if e.Beat? {
      ForwardedSnoc(out, Heartbeat(live.sequence));
    } else if e.Payload? && e.body.Message? {
      ForwardedSnoc(out, Forward(e.body.text));
    }
    assert Forwarded(out) + [] == Forwarded(out);
  }

  /** What is appended to an address the server announces. */
  lemma {:induction false} FullUrlSays(url: string)
    ensures var full := FullUrl(url);
            |full| >= |url| && full[..|url|] == url && full[|url|..] == "/?v=10&encoding=json"
  {
  }

  /** A close is fatal for the codes that reconnecting cannot mend, and clean otherwise. */
  lemma {:induction false} CloseEnds(resume: Option<Resume>, start: int, events: seq<Event>, code: nat)
    requires AfterEvents(resume, start, events).Running?
    ensures var next := AfterEvents(resume, start, events + [CloseFrame(code)]);
            next.Ended? && next.end == if code in {4004, 4010, 4011, 4012, 4013, 4014} then Fatal else Clean
  {
    assert (events + [CloseFrame(code)])[..|events|] == events;
  }

  /** An invalidated session leaves nothing to resume, unless the server calls it resumable:
      then what this session was resumed from is left, and nothing it has learnt since. */
  lemma {:induction false} InvalidationLeaves(resume: Option<Resume>, start: int, events: seq<Event>,
                                              at: int, s: Option<nat>, resumable: bool)
    requires AfterEvents(resume, start, events).Running?
    ensures var next := AfterEvents(resume, start, events + [Payload(at, s, InvalidSession(resumable))]);
            next.Ended? && next.end == Invalid && (if resumable then next.resume == resume else next.resume.None?)
  {
    assert (events + [Payload(at, s, InvalidSession(resumable))])[..|events|] == events;
  }
}
