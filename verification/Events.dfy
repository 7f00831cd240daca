/** Values a handler may return as events, and the shape the log stores them in. */
module Events {
  import opened Wrappers

  /** A JavaScript value, as far as the host looks into one. */
  datatype Value =
    | Undefined
    | Null
    | Bool(b: bool)
    | Num(n: int)
    | Str(s: string)
    | Arr(items: seq<Value>)
    | Obj(fields: map<string, Value>)

  datatype EventRow = EventRow(kind: string, payload: Value)

  /** `normalizeEvent`: `None` where it throws. */
  function Normalize(e: Value): Option<EventRow> {
    if !e.Obj? || "type" !in e.fields || !e.fields["type"].Str? then None
    else if "payload" in e.fields then Some(EventRow(e.fields["type"].s, e.fields["payload"]))
    else Some(EventRow(e.fields["type"].s, Obj(e.fields - {"type"})))
  }

  predicate AllNormal(events: seq<Value>) {
    forall i :: 0 <= i < |events| ==> Normalize(events[i]).Some?
  }

  /** `events.map(normalizeEvent)`, for events that all have a string `type`. */
  function Rows(events: seq<Value>): (rows: seq<EventRow>)
    requires AllNormal(events)
    ensures |rows| == |events|
  {
    seq(|events|, i requires 0 <= i < |events| => Normalize(events[i]).value)
  }

  /** Folding what a handler returned, as the live commit does. */
  function Fold<S>(reduce: (S, Value) -> S, s: S, events: seq<Value>): S {
    if events == [] then s else reduce(Fold(reduce, s, events[..|events| - 1]), events[|events| - 1])
  }

  /** Folding stored rows, as replay does: only the payload reaches the reducer. */
  function Replay<S>(reduce: (S, Value) -> S, s: S, rows: seq<EventRow>): S {
    if rows == [] then s else reduce(Replay(reduce, s, rows[..|rows| - 1]), rows[|rows| - 1].payload)
  }

  lemma {:induction false} ReplayConcat<S>(reduce: (S, Value) -> S, s: S, a: seq<EventRow>, b: seq<EventRow>)
    ensures Replay(reduce, s, a + b) == Replay(reduce, Replay(reduce, s, a), b)
  {
    if b == [] {
      assert a + b == a;
    } else {
      ReplayConcat(reduce, s, a, b[..|b| - 1]);
      assert (a + b)[..|a + b| - 1] == a + b[..|b| - 1];
    }
  }

  lemma {:induction false} FoldConcat<S>(reduce: (S, Value) -> S, s: S, a: seq<Value>, b: seq<Value>)
    ensures Fold(reduce, s, a + b) == Fold(reduce, Fold(reduce, s, a), b)
  {
    if b == [] {
      assert a + b == a;
    } else {
      FoldConcat(reduce, s, a, b[..|b| - 1]);
      assert (a + b)[..|a + b| - 1] == a + b[..|b| - 1];
    }
  }

  /**
   * The reducer cannot tell an event from its stored payload, in any state that live commits can
   * reach from `init`. This is what replay silently relies on.
   */
  ghost predicate Agrees<S(!new)>(reduce: (S, Value) -> S, init: S) {
    forall past, e :: AllNormal(past) && Normalize(e).Some? ==>
      reduce(Fold(reduce, init, past), e) == reduce(Fold(reduce, init, past), Normalize(e).value.payload)
  }

  /** If the reducer agrees, replaying the stored rows gives what the live folds gave. */
  lemma {:induction false} ReplayMatchesFold<S(!new)>(reduce: (S, Value) -> S, init: S, events: seq<Value>)
    requires Agrees(reduce, init) && AllNormal(events)
    ensures Replay(reduce, init, Rows(events)) == Fold(reduce, init, events)
  {
    if events != [] {
      var past, e := events[..|events| - 1], events[|events| - 1];
      ReplayMatchesFold(reduce, init, past);
      assert Rows(events)[..|events| - 1] == Rows(past);
      assert Rows(events)[|events| - 1] == Normalize(e).value;
    }
  }

  ghost predicate ReplaysAsFolded<S(!new)>(reduce: (S, Value) -> S, init: S, events: seq<Value>) {
    AllNormal(events) ==> Replay(reduce, init, Rows(events)) == Fold(reduce, init, events)
  }

  /** One more event that replays as it folds: the reducer agreed on it. */
  lemma AgreedOnLast<S(!new)>(reduce: (S, Value) -> S, init: S, past: seq<Value>, e: Value)
    requires AllNormal(past) && Normalize(e).Some?
    requires ReplaysAsFolded(reduce, init, past) && ReplaysAsFolded(reduce, init, past + [e])
    ensures reduce(Fold(reduce, init, past), e) == reduce(Fold(reduce, init, past), Normalize(e).value.payload)
  {
    var longer := past + [e];
    assert longer[..|longer| - 1] == past && longer[|longer| - 1] == e;
    assert AllNormal(longer);
    var rows := Rows(longer);
    assert rows[..|rows| - 1] == Rows(past) && rows[|rows| - 1] == Normalize(e).value;
  }

  /** Replay reproduces live commits exactly when the reducer agrees: the condition is also necessary. */
  lemma ReplayMatchesFoldIff<S(!new)>(reduce: (S, Value) -> S, init: S)
    ensures Agrees(reduce, init) <==>
            (forall events :: AllNormal(events) ==> Replay(reduce, init, Rows(events)) == Fold(reduce, init, events))
  {
    if Agrees(reduce, init) {
      forall events | AllNormal(events)
        ensures Replay(reduce, init, Rows(events)) == Fold(reduce, init, events)
      {
        ReplayMatchesFold(reduce, init, events);
      }
    }
    if forall events :: AllNormal(events) ==> Replay(reduce, init, Rows(events)) == Fold(reduce, init, events) {
      forall past, e | AllNormal(past) && Normalize(e).Some?
        ensures reduce(Fold(reduce, init, past), e) == reduce(Fold(reduce, init, past), Normalize(e).value.payload)
      {
        AgreedOnLast(reduce, init, past, e);
      }
    }
  }

  // ---------------------------------------------------------------- What is stored

  predicate Tagged(e: Value) { e.Obj? && "type" in e.fields && e.fields["type"].Str? }

  /** The preferred shape: a record with a type and a payload. */
  predicate Explicit(e: Value) { Tagged(e) && "payload" in e.fields }

  /**
   * An explicit record is stored as its type and its very payload, whatever other fields it has; a tagged
   * union as its type and all its other fields; anything else is refused.
   */
  lemma NormalizeIs(e: Value)
    ensures Normalize(e).Some? <==> Tagged(e)
    ensures Tagged(e) ==> Str(Normalize(e).value.kind) == e.fields["type"]
    ensures Explicit(e) ==> Normalize(e).value.payload == e.fields["payload"]
    ensures Tagged(e) && !Explicit(e) ==>
              && Normalize(e).value.payload.Obj?
              && forall f :: (f in Normalize(e).value.payload.fields <==> f in e.fields && f != "type") &&
                   (f in e.fields && f != "type" ==> Normalize(e).value.payload.fields[f] == e.fields[f])
  {
  }

  function PayloadOf(e: Value): Value
    requires Explicit(e)
  {
    e.fields["payload"]
  }

  function PayloadsOf(events: seq<Value>): seq<Value>
    requires forall i :: 0 <= i < |events| ==> Explicit(events[i])
  {
    seq(|events|, i requires 0 <= i < |events| => PayloadOf(events[i]))
  }

  /** A log of explicit records replays as their payloads, for every reducer. */
  lemma {:induction false} ExplicitReplaysPayloads<S>(reduce: (S, Value) -> S, s: S, events: seq<Value>)
    requires forall i :: 0 <= i < |events| ==> Explicit(events[i])
    ensures AllNormal(events) && Replay(reduce, s, Rows(events)) == Fold(reduce, s, PayloadsOf(events))
  {
    if events != [] {
      var before, n := events[..|events| - 1], |events| - 1;
      ExplicitReplaysPayloads(reduce, s, before);
      assert Rows(events)[..n] == Rows(before) && PayloadsOf(events)[..n] == PayloadsOf(before);
      assert Rows(events)[n].payload == PayloadsOf(events)[n];
    }
  }

  // ---------------------------------------------------------------- A reducer that agrees

  /** What a record wraps: its payload, or itself if it is no explicit record. */
  function Unwrapped(e: Value): Value {
    if Explicit(e) then Unwrapped(e.fields["payload"]) else e
  }

  function AmountOf(e: Value): int {
    if e.Obj? && "amount" in e.fields && e.fields["amount"].Num? then e.fields["amount"].n else 0
  }

  /** A reducer written for both shapes: it looks through explicit records. */
  function Tally(state: int, event: Value): int { state + AmountOf(Unwrapped(event)) }

  /** It cannot tell an event from what is stored of it. */
  lemma TallyAgrees(init: int)
    ensures Agrees(Tally, init)
  {
    forall past, e | AllNormal(past) && Normalize(e).Some?
      ensures Tally(Fold(Tally, init, past), e) == Tally(Fold(Tally, init, past), Normalize(e).value.payload)
    {
      NormalizeIs(e);
      UnwrapsAlike(e);
    }
  }

  lemma UnwrapsAlike(e: Value)
    requires Normalize(e).Some?
    ensures AmountOf(Unwrapped(e)) == AmountOf(Unwrapped(Normalize(e).value.payload))
  {
    NormalizeIs(e);
    if !Explicit(e) {
      assert "type" !in Normalize(e).value.payload.fields;
      assert Unwrapped(Normalize(e).value.payload) == Normalize(e).value.payload;
    }
  }

  // ---------------------------------------------------------------- A reducer that disagrees

  /**
   * The ledger of the repository's own tests: a switch over the tag with no default case, so an event
   * without one of its two tags leaves the state `undefined`, which is `None`.
   */
  function Ledger(state: Option<int>, event: Value): Option<int> {
    if event.Obj? && "type" in event.fields && "amount" in event.fields && event.fields["amount"].Num? && state.Some? then
      if event.fields["type"] == Str("Deposited") then Some(state.value + event.fields["amount"].n)
      else if event.fields["type"] == Str("Withdrawn") then Some(state.value - event.fields["amount"].n)
      else None
    else None
  }

  /** What the tests' handlers return for a movement of `amount`, a withdrawal if it is negative. */
  function Movement(amount: int): Value {
    if amount >= 0 then Obj(map["type" := Str("Deposited"), "amount" := Num(amount)])
    else Obj(map["type" := Str("Withdrawn"), "amount" := Num(-amount)])
  }

  function Movements(amounts: seq<int>): seq<Value> { seq(|amounts|, i requires 0 <= i < |amounts| => Movement(amounts[i])) }

  function Sum(amounts: seq<int>): int {
    if amounts == [] then 0 else Sum(amounts[..|amounts| - 1]) + amounts[|amounts| - 1]
  }

  /** Live, the ledger is the sum of its movements; any other event costs it its state. */
  lemma {:induction false} LedgerIsBalance(amounts: seq<int>, balance: int)
    ensures Fold(Ledger, Some(balance), Movements(amounts)) == Some(balance + Sum(amounts))
    ensures AllNormal(Movements(amounts))
    ensures forall state, e :: Ledger(state, e).Some? && e.Obj? && "type" in e.fields ==>
      e.fields["type"] == Str("Deposited") || e.fields["type"] == Str("Withdrawn")
  {
    if amounts != [] {
      var k := |amounts| - 1;
      LedgerIsBalance(amounts[..k], balance);
      assert Movements(amounts)[..k] == Movements(amounts[..k]);
    }
  }

  const Deposit10: Value := Obj(map["type" := Str("Deposited"), "amount" := Num(10)])

  /** The tagged-union ledger loses its whole state on replay: the stored payload no longer has a `type`. */
  lemma TaggedUnionLedgerIsNotReplayed()
    ensures Normalize(Deposit10) == Some(EventRow("Deposited", Obj(map["amount" := Num(10)])))
    ensures Fold(Ledger, Some(0), [Deposit10]) == Some(10)
    ensures Replay(Ledger, Some(0), Rows([Deposit10])) == None
    ensures !Agrees(Ledger, Some(0))
  {
    LiveAndReplayed();
    assert !Agrees(Ledger, Some(0)) by {
      ReplayMatchesFoldIff(Ledger, Some(0));
      assert AllNormal([Deposit10]);
    }
  }

  lemma LiveAndReplayed()
    ensures Normalize(Deposit10) == Some(EventRow("Deposited", Obj(map["amount" := Num(10)])))
    ensures Fold(Ledger, Some(0), [Deposit10]) == Some(10)
    ensures Replay(Ledger, Some(0), Rows([Deposit10])) == None
  {
    assert Deposit10.fields - {"type"} == map["amount" := Num(10)];
    var rows := Rows([Deposit10]);
    assert rows[0].payload == Obj(map["amount" := Num(10)]) && rows[..0] == [];
    assert Fold(Ledger, Some(0), [Deposit10][..0]) == Some(0);
  }

  /** Every logged event does that: whatever the ledger commits, a replay of it ends in `undefined`. */
  lemma LedgerReplaysToUndefined(events: seq<Value>, state: Option<int>)
    requires AllNormal(events) && events != []
    requires forall i :: 0 <= i < |events| ==> "payload" !in events[i].fields
    ensures Replay(Ledger, state, Rows(events)) == None
  {
    var rows := Rows(events);
    var last := rows[|rows| - 1];
    assert Normalize(events[|events| - 1]) == Some(last);
    assert "type" !in last.payload.fields;
  }
}
