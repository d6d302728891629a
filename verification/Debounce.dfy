/** crates/openclaw-gateway/src/debounce.rs: collects rapid messages per key and hands them
    on as one batch, when the batch is full or after a quiet period. Every operation holds
    the lock throughout, so a run is a sequence of additions and timer checks.
    Times are milliseconds. */
module Debounce {
  import opened Common

  /** The source also keeps a flush handle, which nothing ever sets. */
  datatype Batch = Batch(messages: seq<string>, lastReceived: int)

  type Pending = map<string, Batch>

  function Join(messages: seq<string>): string {
    if messages == [] then ""
    else if |messages| == 1 then messages[0]
    else Join(messages[..|messages| - 1]) + "\n\n" + messages[|messages| - 1]
  }

  /** What one look at the clock finds. */
  datatype Check = Flushed(batch: seq<string>) | TooEarly | Gone

  // ----- The two operations on the pending batches -----

  function PendingOf(pending: Pending, key: string): seq<string> {
    if key in pending then pending[key].messages else []
  }

  /** A message arrives; a full batch is handed on at once. */
  function Added(maxCollect: nat, pending: Pending, key: string, text: string, now: int)
    : (Pending, Option<seq<string>>)
  {
    var messages := PendingOf(pending, key) + [text];
    if |messages| >= maxCollect then (pending - {key}, Some(messages))
    else (pending[key := Batch(messages, now)], None)
  }

  /** One round of the waiting loop, after its sleep. */
  function Checked(debounceMs: nat, pending: Pending, key: string, now: int): (Pending, Check) {
    if key !in pending then (pending, Gone)
    else if Max(now - pending[key].lastReceived, 0) >= debounceMs then (pending - {key}, Flushed(pending[key].messages))
    else (pending, TooEarly)
  }

  class MessageDebouncer {
    const debounceMs: nat
    const maxCollect: nat
    var pending: Pending

    constructor (debounceMs: nat, maxCollect: nat)
      ensures this.debounceMs == debounceMs && this.maxCollect == maxCollect && pending == map[]
    {
      this.debounceMs := debounceMs;
      this.maxCollect := maxCollect;
      pending := map[];
    }

    method AddMessage(key: string, text: string, now: int) returns (collected: Option<string>)
      modifies this
      ensures pending == Added(maxCollect, old(pending), key, text, now).0
      ensures match Added(maxCollect, old(pending), key, text, now).1
              case Some(batch) => collected == Some(Join(batch))
              case None => collected == None
    {
      var batch := if key in pending then pending[key] else Batch([], now);
      batch := batch.(messages := batch.messages + [text]);
      batch := batch.(lastReceived := now);
      pending := pending[key := batch];
      if |batch.messages| >= maxCollect {
        pending := pending - {key};
        return Some(Join(batch.messages));
      }
      return None;
    }

    method CheckTimer(key: string, now: int) returns (check: Check)
      modifies this
      ensures (pending, check) == Checked(debounceMs, old(pending), key, now)
    {
      if key in pending {
        var batch := pending[key];
        if Max(now - batch.lastReceived, 0) >= debounceMs {
          pending := pending - {key};
          return Flushed(batch.messages);
        }
        return TooEarly;
      }
      return Gone;
    }
  }

  // ----- Runs -----

  datatype Op = Add(key: string, text: string, at: int) | Look(key: string, at: int)

  function After(debounceMs: nat, maxCollect: nat, ops: seq<Op>): Pending {
    if ops == [] then map[]
    else Step(debounceMs, maxCollect, After(debounceMs, maxCollect, ops[..|ops| - 1]), ops[|ops| - 1])
  }

  function Step(debounceMs: nat, maxCollect: nat, pending: Pending, op: Op): Pending {
    match op
    case Add(key, text, at) => Added(maxCollect, pending, key, text, at).0
    case Look(key, at) => Checked(debounceMs, pending, key, at).0
  }

  /** The batch an operation hands on for a key, if any. */
  function Released(debounceMs: nat, maxCollect: nat, pending: Pending, op: Op, key: string): Option<seq<string>> {
    if op.key != key then None
    else match op
      case Add(_, text, at) => Added(maxCollect, pending, key, text, at).1
      case Look(_, at) =>
        match Checked(debounceMs, pending, key, at).1
        case Flushed(batch) => Some(batch)
        case _ => None
  }

  function Listed<T>(o: Option<T>): seq<T> {
    if o.Some? then [o.value] else []
  }

  /** The message an operation adds for a key, if any. */
  function Text(op: Op, key: string): seq<string> {
    if op.Add? && op.key == key then [op.text] else []
  }

  /** All batches handed on for a key, oldest first. */
  function Batches(debounceMs: nat, maxCollect: nat, ops: seq<Op>, key: string): seq<seq<string>> {
    if ops == [] then []
    else
      var before := ops[..|ops| - 1];
      Batches(debounceMs, maxCollect, before, key)
      + Listed(Released(debounceMs, maxCollect, After(debounceMs, maxCollect, before), ops[|ops| - 1], key))
  }

  /** The messages added for a key, in order. */
  function Messages(ops: seq<Op>, key: string): seq<string> {
    if ops == [] then [] else Messages(ops[..|ops| - 1], key) + Text(ops[|ops| - 1], key)
  }

  /** When the last message for a key was added. */
  function LastAdded(ops: seq<Op>, key: string): Option<int> {
    if ops == [] then None
    else
      var op := ops[|ops| - 1];
      if op.Add? && op.key == key then Some(op.at) else LastAdded(ops[..|ops| - 1], key)
  }

  /** Under any interleaving, the batches handed on for a key followed by its pending batch
      are the messages added for it: each once, in order. */
  lemma {:induction false} NothingLostOrRepeated(debounceMs: nat, maxCollect: nat, ops: seq<Op>, key: string)
    ensures Flatten(Batches(debounceMs, maxCollect, ops, key)) + PendingOf(After(debounceMs, maxCollect, ops), key)
         == Messages(ops, key)
    decreases |ops|
  {
    if ops != [] {
      var before := ops[..|ops| - 1];
      NothingLostOrRepeated(debounceMs, maxCollect, before, key);
      OneStep(debounceMs, maxCollect, After(debounceMs, maxCollect, before), ops[|ops| - 1], key,
              Batches(debounceMs, maxCollect, before, key));
    }
  }

  lemma {:induction false} OneStep(debounceMs: nat, maxCollect: nat, pending: Pending, op: Op, key: string,
                                   batches: seq<seq<string>>)
    ensures Flatten(batches + Listed(Released(debounceMs, maxCollect, pending, op, key)))
            + PendingOf(Step(debounceMs, maxCollect, pending, op), key)
         == Flatten(batches) + PendingOf(pending, key) + Text(op, key)
  {
    var released := Released(debounceMs, maxCollect, pending, op, key);
    ReleasedOrPending(debounceMs, maxCollect, pending, op, key);
    ConcatAssociative(Flatten(batches), PendingOf(pending, key), Text(op, key));
    if released.Some? {
      FlattenSnoc(batches, released.value);
    } else {
      assert batches + [] == batches;
    }
  }

  /** After an operation all of a key's messages are handed on, or all are pending. */
  lemma {:induction false} ReleasedOrPending(debounceMs: nat, maxCollect: nat, pending: Pending, op: Op, key: string)
    ensures var released := Released(debounceMs, maxCollect, pending, op, key);
            var after := PendingOf(Step(debounceMs, maxCollect, pending, op), key);
            var messages := PendingOf(pending, key) + Text(op, key);
            if released.Some? then released.value == messages && after == [] else after == messages
  {
  }

  /** A pending batch is never empty and never full, and knows when it last grew. */
  lemma {:induction false} PendingIsPartial(debounceMs: nat, maxCollect: nat, ops: seq<Op>, key: string)
    requires key in After(debounceMs, maxCollect, ops)
    ensures var batch := After(debounceMs, maxCollect, ops)[key];
            && 0 < |batch.messages| < maxCollect
            && LastAdded(ops, key) == Some(batch.lastReceived)
    decreases |ops|
  {
    var before := ops[..|ops| - 1];
    if key in After(debounceMs, maxCollect, before) {
      PendingIsPartial(debounceMs, maxCollect, before, key);
    }
  }

  /** Handed-on batches are never empty and never above the limit; one handed on by an
      addition is exactly full. */
  lemma {:induction false} BatchSizes(debounceMs: nat, maxCollect: nat, ops: seq<Op>, op: Op, batch: seq<string>)
    requires Released(debounceMs, maxCollect, After(debounceMs, maxCollect, ops), op, op.key) == Some(batch)
    ensures 0 < |batch| <= Max(maxCollect, 1)
    ensures op.Add? ==> |batch| == Max(maxCollect, 1)
  {
    if op.key in After(debounceMs, maxCollect, ops) {
      PendingIsPartial(debounceMs, maxCollect, ops, op.key);
    }
  }

  predicate Ordered(ops: seq<Op>) {
    forall i, j :: 0 <= i < j < |ops| ==> ops[i].at <= ops[j].at
  }

  /** A look at the clock hands the batch on exactly when there is one and no message for
      the key came within the quiet period. */
  lemma {:induction false} TimerFlushIff(debounceMs: nat, maxCollect: nat, ops: seq<Op>, key: string, now: int)
    requires Ordered(ops + [Look(key, now)])
    ensures Checked(debounceMs, After(debounceMs, maxCollect, ops), key, now).1.Flushed?
       <==> && PendingOf(After(debounceMs, maxCollect, ops), key) != []
            && forall i :: 0 <= i < |ops| && ops[i].Add? && ops[i].key == key ==> now - ops[i].at >= debounceMs
  {
    var pending := After(debounceMs, maxCollect, ops);
    assert forall i :: 0 <= i < |ops| ==> (ops + [Look(key, now)])[i] == ops[i];
    assert (ops + [Look(key, now)])[|ops|] == Look(key, now);
    if key in pending {
      PendingIsPartial(debounceMs, maxCollect, ops, key);
      var last := LastAddedIsLatest(ops, key);
      assert ops[last].at <= now;
    }
  }

  lemma {:induction false} LastAddedIsLatest(ops: seq<Op>, key: string) returns (last: nat)
    requires Ordered(ops) && LastAdded(ops, key).Some?
    ensures last < |ops| && ops[last].Add? && ops[last].key == key && LastAdded(ops, key) == Some(ops[last].at)
    ensures forall i :: 0 <= i < |ops| && ops[i].Add? && ops[i].key == key ==> ops[i].at <= ops[last].at
    decreases |ops|
  {
    var op := ops[|ops| - 1];
    if op.Add? && op.key == key {
      last := |ops| - 1;
    } else {
      last := LastAddedIsLatest(ops[..|ops| - 1], key);
    }
  }

  // ----- The joined text -----

  /** One message is its own text, and a blank line stands between messages. */
  lemma {:induction false} JoinSays(a: seq<string>, b: seq<string>, text: string)
    ensures Join([text]) == text
    ensures a != [] && b != [] ==> Join(a + b) == Join(a) + "\n\n" + Join(b)
    decreases |b|
  {
    if a != [] && b != [] {
      var k := |b| - 1;
      assert (a + b)[..|a + b| - 1] == a + b[..k];
      if k == 0 {
        assert a + b[..k] == a;
      } else {
        JoinSays(a, b[..k], text);
        BlankLines(Join(a), Join(b[..k]), b[k]);
      }
    }
  }

  lemma {:induction false} BlankLines(a: string, b: string, c: string)
    ensures a + "\n\n" + b + "\n\n" + c == a + "\n\n" + (b + "\n\n" + c)
  {
  }
}
