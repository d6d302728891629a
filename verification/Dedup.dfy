/** crates/openclaw-ui/src/dispatch.rs, the event dispatcher: every event arrives up to
    twice, so the loop remembers the last 256 events it handled and skips those. */
module Dedup {
  import opened Common

  const DEDUP_WINDOW: nat := 256

  /** What one receive returns; `Lagged` reports events lost on the way. */
  datatype Received = Event(id: int) | Lagged(skipped: nat) | Closed

  /** What is received before the channel closes. */
  function UntilClosed(received: seq<Received>): seq<Received> {
    if received == [] || received[0].Closed? then []
    else [received[0]] + UntilClosed(received[1..])
  }

  /** The rule the loop implements: an event is handled unless it is one of the last
      256 handled events. */
  function Handled(received: seq<Received>): seq<int> {
    if received == [] then []
    else AfterReceive(Handled(received[..|received| - 1]), received[|received| - 1])
  }

  function AfterReceive(handled: seq<int>, r: Received): seq<int> {
    if r.Event? && r.id !in Last(handled, DEDUP_WINDOW) then handled + [r.id] else handled
  }

  predicate NoDuplicates(s: seq<int>) {
    forall i, j :: 0 <= i < j < |s| ==> s[i] != s[j]
  }

  ghost predicate SameElements(seen: set<int>, order: seq<int>) {
    forall id :: id in seen <==> id in order
  }

  /** The dispatcher's loop over a finite run of receives. */
  method DispatchEvents(received: seq<Received>) returns (dispatched: seq<int>, seen: set<int>, seenOrder: seq<int>)
    ensures dispatched == Handled(UntilClosed(received))
    ensures seenOrder == Last(dispatched, DEDUP_WINDOW)
    ensures SameElements(seen, seenOrder) && NoDuplicates(seenOrder)
  {
    dispatched, seen, seenOrder := [], {}, [];
    var i := 0;
    ghost var wanted := UntilClosed(received);
    while i < |received|
      invariant 0 <= i <= |received|
      invariant i <= |wanted| && wanted[i..] == UntilClosed(received[i..])
      invariant dispatched == Handled(wanted[..i])
      invariant seenOrder == Last(dispatched, DEDUP_WINDOW)
      invariant SameElements(seen, seenOrder) && NoDuplicates(seenOrder)
    {
      if received[i].Closed? {
        break;
      }
      UntilClosedStep(received, wanted, i);
      var r := received[i];
      i := i + 1;
      if r.Lagged? || r.id in seen {
        continue;
      }
      SlideWindow(dispatched, r.id, seen);
      dispatched := dispatched + [r.id];
      seen := seen + {r.id};
      seenOrder := seenOrder + [r.id];
      if |seenOrder| > DEDUP_WINDOW {
        var oldest := seenOrder[0];
        seenOrder := seenOrder[1..];
        seen := seen - {oldest};
      }
    }
    assert UntilClosed(received[i..]) == [];
    assert wanted[..i] == wanted;
  }

  lemma {:induction false} UntilClosedStep(received: seq<Received>, wanted: seq<Received>, i: nat)
    requires i < |received| && !received[i].Closed?
    requires i <= |wanted| && wanted[i..] == UntilClosed(received[i..])
    ensures i < |wanted| && wanted[i] == received[i] && wanted[i + 1..] == UntilClosed(received[i + 1..])
    ensures Handled(wanted[..i + 1]) == AfterReceive(Handled(wanted[..i]), received[i])
  {
    assert received[i..][0] == received[i] && received[i..][1..] == received[i + 1..];
    assert wanted[i..][0] == wanted[i] && wanted[i..][1..] == wanted[i + 1..];
    assert wanted[..i + 1][..i] == wanted[..i];
  }

  /** Pushing a fresh id onto the window and dropping the oldest keeps the window exact. */
  lemma {:induction false} SlideWindow(handled: seq<int>, id: int, seen: set<int>)
    requires SameElements(seen, Last(handled, DEDUP_WINDOW)) && NoDuplicates(Last(handled, DEDUP_WINDOW))
    requires id !in Last(handled, DEDUP_WINDOW)
    ensures var pushed := Last(handled, DEDUP_WINDOW) + [id];
            var window := Last(handled + [id], DEDUP_WINDOW);
            && NoDuplicates(window)
            && window == (if |pushed| > DEDUP_WINDOW then pushed[1..] else pushed)
            && SameElements(if |pushed| > DEDUP_WINDOW then seen + {id} - {pushed[0]} else seen + {id}, window)
  {
    var before := Last(handled, DEDUP_WINDOW);
    var pushed := before + [id];
    assert forall x :: x in pushed <==> x in before || x == id;
    assert NoDuplicates(pushed);
    if |pushed| > DEDUP_WINDOW {
      assert pushed == [pushed[0]] + pushed[1..];
      assert forall x :: x in pushed <==> x == pushed[0] || x in pushed[1..];
    }
  }

  /** Two handlings of one event have at least 256 other handlings between them. */
  lemma {:induction false} RepeatsAreFarApart(received: seq<Received>, i: nat, j: nat)
    requires i < j < |Handled(received)| && Handled(received)[i] == Handled(received)[j]
    ensures j - i > DEDUP_WINDOW
    decreases |received|
  {
    var before := Handled(received[..|received| - 1]);
    if j < |before| {
      RepeatsAreFarApart(received[..|received| - 1], i, j);
    } else if i + DEDUP_WINDOW >= j {
      LastHolds(before, DEDUP_WINDOW, i);
      assert false;
    }
  }

  lemma {:induction false} LastHolds(s: seq<int>, n: nat, i: nat)
    requires |s| - n <= i < |s|
    ensures s[i] in Last(s, n)
  {
    assert Last(s, n)[i - (|s| - |Last(s, n)|)] == s[i];
  }

  /** No received event is forgotten, and nothing else is handled. */
  lemma {:induction false} HandledIffReceived(received: seq<Received>, id: int)
    ensures id in Handled(received) <==> Event(id) in received
    decreases |received|
  {
    if received != [] {
      var last := received[|received| - 1];
      var before := Handled(received[..|received| - 1]);
      HandledIffReceived(received[..|received| - 1], id);
      assert received == received[..|received| - 1] + [last];
      if last == Event(id) && id in Last(before, DEDUP_WINDOW) {
        LastIsPart(before, DEDUP_WINDOW, id);
      }
    }
  }

  lemma {:induction false} LastIsPart(s: seq<int>, n: nat, x: int)
    requires x in Last(s, n)
    ensures x in s
  {
  }
}
