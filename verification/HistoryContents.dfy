/** Which messages a reload keeps (crates/openclaw-agent/src/runtime.rs:189-237), told by
    their places in the affordable end of the history, and how much text that is. */
module HistoryContents {
  import opened Common
  import opened Messages
  import opened History

  /** The messages at some places of a list. */
  function At(ms: seq<Message>, places: seq<nat>): seq<Message>
    requires forall i :: 0 <= i < |places| ==> places[i] < |ms|
  {
    seq(|places|, i requires 0 <= i < |places| => ms[places[i]])
  }

  predicate Increasing(places: seq<nat>) {
    forall i, j :: 0 <= i < j < |places| ==> places[i] < places[j]
  }

  predicate Within(places: seq<nat>, n: nat) {
    forall i :: 0 <= i < |places| ==> places[i] < n
  }

  // ----- What is left out -----

  predicate SaysNothing(m: Message) {
    m.role.User? && (m.content == None || m.content == Some(""))
  }

  /** Before place i there are only tool messages and empty user messages. */
  predicate OnlyToolsBefore(ms: seq<Message>, i: nat)
    requires i <= |ms|
  {
    forall j :: 0 <= j < i ==> ms[j].role.Tool? || SaysNothing(ms[j])
  }

  predicate LeadingTool(ms: seq<Message>, i: nat)
    requires i < |ms|
  {
    ms[i].role.Tool? && OnlyToolsBefore(ms, i)
  }

  /** The next message that says something, if there is one, is a tool message. */
  ghost predicate ToolFollows(ms: seq<Message>, i: nat)
    requires i < |ms|
  {
    exists j :: i < j < |ms| && ms[j].role.Tool? && forall l :: i < l < j ==> SaysNothing(ms[l])
  }

  predicate FirstCaller(ms: seq<Message>, i: nat)
    requires i < |ms|
  {
    ms[i].role.Assistant? && ms[i].toolCalls.Some? && OnlyToolsBefore(ms, i)
  }

  ghost predicate LeftOut(ms: seq<Message>, i: nat)
    requires i < |ms|
  {
    SaysNothing(ms[i]) || LeadingTool(ms, i) || (FirstCaller(ms, i) && !ToolFollows(ms, i))
  }

  // ----- The three steps by places -----

  lemma {:induction false} DropPlaces(ms: seq<Message>) returns (places: seq<nat>)
    ensures Increasing(places) && Within(places, |ms|)
    ensures forall p: nat :: p in places <==> p < |ms| && !SaysNothing(ms[p])
    ensures DropEmptyUsers(ms) == At(ms, places)
    decreases |ms|
  {
    if ms == [] {
      places := [];
    } else {
      var k := |ms| - 1;
      var before := DropPlaces(ms[..k]);
      DropLast(ms);
      assert At(ms[..k], before) == At(ms, before);
      places := before + if SaysNothing(ms[k]) then [] else [k];
      assert At(ms, places) == At(ms, before) + if SaysNothing(ms[k]) then [] else [ms[k]];
      assert forall p: nat :: p in places <==> p in before || (p == k && !SaysNothing(ms[k]));
    }
  }

  lemma {:induction false} DropLast(ms: seq<Message>)
    requires ms != []
    ensures var k := |ms| - 1;
            DropEmptyUsers(ms) == DropEmptyUsers(ms[..k]) + (if SaysNothing(ms[k]) then [] else [ms[k]])
  {
    var k := |ms| - 1;
    assert ms == ms[..k] + [ms[k]] && [ms[k]][1..] == [];
    DropConcat(ms[..k], [ms[k]]);
  }

  /** All that says something is at one of the places. */
  ghost predicate HoldsAll(ms: seq<Message>, places: seq<nat>) {
    && Increasing(places) && Within(places, |ms|)
    && forall p: nat :: p in places <==> p < |ms| && !SaysNothing(ms[p])
  }

  /** The first n places hold the leading tools exactly. */
  lemma {:induction false} LeadingPlaces(ms: seq<Message>, places: seq<nat>, i: nat)
    requires HoldsAll(ms, places) && i < |places|
    ensures OnlyToolsBefore(ms, places[i]) <==> i <= LeadingTools(At(ms, places))
    ensures LeadingTool(ms, places[i]) <==> i < LeadingTools(At(ms, places))
  {
    var named := At(ms, places);
    var n := LeadingTools(named);
    if i <= n {
      forall j | 0 <= j < places[i] ensures ms[j].role.Tool? || SaysNothing(ms[j]) {
        if !SaysNothing(ms[j]) {
          assert j in places;
          var l :| 0 <= l < |places| && places[l] == j;
          assert l < i && named[l].role.Tool?;
        }
      }
      assert i < n ==> named[i].role.Tool?;
    } else {
      assert !named[n].role.Tool? && !SaysNothing(ms[places[n]]) && places[n] < places[i];
      assert !(ms[places[n]].role.Tool? || SaysNothing(ms[places[n]]));
    }
  }

  /** What follows place i in the list of places follows it among what says something. */
  lemma {:induction false} NextPlace(ms: seq<Message>, places: seq<nat>, i: nat)
    requires HoldsAll(ms, places) && i < |places|
    ensures ToolFollows(ms, places[i]) <==> i + 1 < |places| && ms[places[i + 1]].role.Tool?
  {
    if ToolFollows(ms, places[i]) {
      var j :| places[i] < j < |ms| && ms[j].role.Tool? && forall l :: places[i] < l < j ==> SaysNothing(ms[l]);
      assert j in places;
      var l :| 0 <= l < |places| && places[l] == j;
      assert l > i;
      assert places[i + 1] in places && places[i] < places[i + 1];
      assert places[i + 1] >= j;
    }
    if i + 1 < |places| && ms[places[i + 1]].role.Tool? {
      NothingBetween(places, i);
      forall l | places[i] < l < places[i + 1] ensures SaysNothing(ms[l]) {
        assert l !in places;
      }
    }
  }

  lemma {:induction false} NothingBetween(places: seq<nat>, i: nat)
    requires Increasing(places) && i + 1 < |places|
    ensures forall p :: places[i] < p < places[i + 1] ==> p !in places
  {
    forall m | 0 <= m < |places| ensures places[m] <= places[i] || places[m] >= places[i + 1] {
    }
  }

  lemma {:induction false} PlacesFrom(ms: seq<Message>, places: seq<nat>, start: nat)
    requires HoldsAll(ms, places) && start <= |places|
    requires forall i :: 0 <= i < |places| ==> (i < start <==> LeftOut(ms, places[i]))
    ensures forall p: nat :: p in places[start..] <==> p < |ms| && !LeftOut(ms, p)
    ensures Increasing(places[start..]) && Within(places[start..], |ms|)
    ensures At(ms, places[start..]) == At(ms, places)[start..]
  {
    forall p: nat | p < |ms| && !LeftOut(ms, p) ensures p in places[start..] {
      assert p in places;
      var i :| 0 <= i < |places| && places[i] == p;
      assert places[start..][i - start] == p;
    }
    forall i | 0 <= i < |places[start..]| ensures places[start..][i] < |ms| && !LeftOut(ms, places[start..][i]) {
      assert places[start..][i] == places[start + i];
    }
  }

  /** Sanitising keeps the message of a place exactly when it is not left out. */
  lemma {:induction false} SanitisePlaces(ms: seq<Message>) returns (places: seq<nat>)
    ensures Increasing(places) && Within(places, |ms|) && Sanitise(ms) == At(ms, places)
    ensures forall p: nat :: p in places <==> p < |ms| && !LeftOut(ms, p)
  {
    var all := DropPlaces(ms);
    var start := StartPlace(ms, all);
    PlacesFrom(ms, all, start);
    places := all[start..];
  }

  /** Where the kept part starts in the list of places. */
  lemma {:induction false} StartPlace(ms: seq<Message>, places: seq<nat>) returns (start: nat)
    requires HoldsAll(ms, places) && DropEmptyUsers(ms) == At(ms, places)
    ensures start <= |places| && Sanitise(ms) == At(ms, places)[start..]
    ensures forall i :: 0 <= i < |places| ==> (i < start <==> LeftOut(ms, places[i]))
  {
    var named := At(ms, places);
    var n := LeadingTools(named);
    start := if StartsUnanswered(named[n..]) then n + 1 else n;
    forall i | 0 <= i < |places| ensures i < start <==> LeftOut(ms, places[i]) {
      PlaceLeftOutIff(ms, places, i);
    }
    assert StartsUnanswered(named[n..]) ==> named[n..][1..] == named[n + 1..];
  }

  lemma {:induction false} PlaceLeftOutIff(ms: seq<Message>, places: seq<nat>, i: nat)
    requires HoldsAll(ms, places) && i < |places|
    ensures var named := At(ms, places);
            var n := LeadingTools(named);
            LeftOut(ms, places[i]) <==> i < n || (i == n && StartsUnanswered(named[n..]))
  {
    var named := At(ms, places);
    var n := LeadingTools(named);
    assert places[i] in places && !SaysNothing(ms[places[i]]);
    LeadingPlaces(ms, places, i);
    NextPlace(ms, places, i);
    if i == n {
      assert named[n..][0] == ms[places[i]];
      assert |named[n..]| > 1 ==> named[n..][1] == ms[places[i + 1]];
    } else if i > n {
      assert !FirstCaller(ms, places[i]);
    }
  }

  // ----- What is reloaded -----

  /** The longest end of the last 40 messages that fits the budget. */
  function Affordable(stored: seq<SessionMessage>): seq<Message> {
    var candidates := Last(Restore(stored), MAX_HISTORY_MESSAGES);
    candidates[KeptFrom(candidates, MAX_HISTORY_TOKENS)..]
  }

  /** The reloaded history holds, in order, exactly those affordable messages that are not
      left out: empty user messages, tool messages in front of everything else, and an
      assistant message with calls in front of everything else that no tool message follows. */
  lemma {:induction false} ReloadedPlaces(stored: seq<SessionMessage>) returns (places: seq<nat>)
    ensures Increasing(places) && Within(places, |Affordable(stored)|)
    ensures LoadedHistory(stored) == At(Affordable(stored), places)
    ensures forall p: nat :: p in places <==> p < |Affordable(stored)| && !LeftOut(Affordable(stored), p)
  {
    places := SanitisePlaces(Affordable(stored));
  }

  lemma {:induction false} NoEmptyUserReloaded(stored: seq<SessionMessage>)
    ensures forall m :: m in LoadedHistory(stored) ==>
              !(m.role.User? && (m.content == None || m.content == Some("")))
  {
    var places := ReloadedPlaces(stored);
    forall i | 0 <= i < |LoadedHistory(stored)| ensures !SaysNothing(LoadedHistory(stored)[i]) {
      assert places[i] in places;
    }
  }

  // ----- The budget in characters -----

  function Characters(ms: seq<Message>): nat {
    if ms == [] then 0 else |ms[0].content.GetOr("")| + Characters(ms[1..])
  }

  /** A token stands for about four characters, and every message costs four more. */
  lemma {:induction false} TokensAreCharacters(ms: seq<Message>)
    ensures Characters(ms) + 13 * |ms| <= 4 * Tokens(ms) <= Characters(ms) + 20 * |ms|
    decreases |ms|
  {
    if ms != [] {
      TokensAreCharacters(ms[1..]);
    }
  }

  lemma {:induction false} KeptInCharacters(ms: seq<Message>, budget: nat)
    ensures var start := KeptFrom(ms, budget);
            && Characters(ms[start..]) + 13 * (|ms| - start) <= 4 * budget
            && (start > 0 ==> Characters(ms[start - 1..]) + 20 * (|ms| - start + 1) > 4 * budget)
  {
    var start := KeptFrom(ms, budget);
    KeptFromLongest(ms, budget);
    TokensAreCharacters(ms[start..]);
    if start > 0 {
      TokensAreCharacters(ms[start - 1..]);
    }
  }

  /** So the affordable messages have at most 48000 characters, counting 13 more for each,
      and with one message more they would have over 48000, counting 20 more for each. */
  lemma {:induction false} AffordableInCharacters(stored: seq<SessionMessage>)
    ensures var candidates, n := Last(Restore(stored), MAX_HISTORY_MESSAGES), |Affordable(stored)|;
            && n <= |candidates|
            && Affordable(stored) == candidates[|candidates| - n..]
            && Characters(Affordable(stored)) + 13 * n <= 48_000
            && (n < |candidates| ==> Characters(candidates[|candidates| - n - 1..]) + 20 * (n + 1) > 48_000)
  {
    KeptInCharacters(Last(Restore(stored), MAX_HISTORY_MESSAGES), MAX_HISTORY_TOKENS);
  }
}
