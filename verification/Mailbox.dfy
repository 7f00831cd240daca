/**
 * The bounded mailbox of an actor host. A consumer that calls `dequeue` holds a promise; promises
 * are named here by the order of the calls, so ticket `t` is the (t+1)st `dequeue` ever made.
 */
module Mailbox {
  import opened Wrappers


  datatype Verdict = Accepted | Full | Closed

  /** The mailbox as a value. `resolved` holds the promises already settled; `None` is JS `null`. */
  datatype Box<T> = Box(
    capacity: nat,
    buffer: seq<T>,
    waiters: seq<nat>,
    closed: bool,
    calls: nat,
    resolved: map<nat, Option<T>>)

  datatype Op<T> = Enqueue(item: T) | Dequeue | Close

  function Empty<T>(capacity: nat): Box<T> {
    Box(capacity, [], [], false, 0, map[])
  }

  function Judge<T>(b: Box<T>): Verdict {
    if b.closed then Closed
    else if b.waiters != [] || |b.buffer| < b.capacity then Accepted
    else Full
  }

  function Step<T>(b: Box<T>, op: Op<T>): Box<T> {
    match op
    case Enqueue(item) =>
      if Judge(b) != Accepted then b
      else if b.waiters != [] then
        b.(waiters := b.waiters[1..], resolved := b.resolved[b.waiters[0] := Some(item)])
      else b.(buffer := b.buffer + [item])
    case Dequeue =>
      var t := b.calls;
      if b.buffer != [] then
        b.(calls := t + 1, buffer := b.buffer[1..], resolved := b.resolved[t := Some(b.buffer[0])])
      else if b.closed then b.(calls := t + 1, resolved := b.resolved[t := None])
      else b.(calls := t + 1, waiters := b.waiters + [t])
    case Close =>
      if b.closed then b
      else b.(closed := true, waiters := [], resolved := b.resolved + map t | t in b.waiters :: None)
  }

  // ---------------------------------------------------------------- Runs

  function Run<T>(capacity: nat, ops: seq<Op<T>>): Box<T> {
    if ops == [] then Empty(capacity)
    else Step(Run(capacity, ops[..|ops| - 1]), ops[|ops| - 1])
  }

  /** The items whose `enqueue` returned true, oldest first. */
  function AcceptedItems<T>(capacity: nat, ops: seq<Op<T>>): seq<T> {
    if ops == [] then []
    else
      var before, last := ops[..|ops| - 1], ops[|ops| - 1];
      AcceptedItems(capacity, before) +
      if last.Enqueue? && Judge(Run(capacity, before)) == Accepted then [last.item] else []
  }

  function Calls<T>(ops: seq<Op<T>>): nat {
    if ops == [] then 0 else Calls(ops[..|ops| - 1]) + if ops[|ops| - 1].Dequeue? then 1 else 0
  }

  predicate WasClosed<T>(ops: seq<Op<T>>) {
    exists i :: 0 <= i < |ops| && ops[i].Close?
  }

  /**
   * The ideal mailbox: ticket `t` gets the (t+1)st accepted item, or null once the box is closed
   * and there is no such item. Buffer and waiters are what is left over on either side.
   */
  ghost predicate Ideal<T>(b: Box<T>, items: seq<T>, calls: nat, closed: bool) {
    && b.calls == calls
    && b.closed == closed
    && b.buffer == (if calls < |items| then items[calls..] else [])
    && |b.waiters| == (if closed || calls < |items| then 0 else calls - |items|)
    && (forall i :: 0 <= i < |b.waiters| ==> b.waiters[i] == |items| + i)
    && (forall t :: t in b.resolved <==> 0 <= t < calls && (closed || t < |items|))
    && (forall t :: t in b.resolved ==> b.resolved[t] == if t < |items| then Some(items[t]) else None)
  }

  lemma IdealEnqueue<T>(b: Box<T>, item: T, items: seq<T>, calls: nat, closed: bool)
    requires Ideal(b, items, calls, closed) && Judge(b) == Accepted
    ensures Ideal(Step(b, Enqueue(item)), items + [item], calls, closed)
  {
    assert (items + [item])[..|items|] == items;
  }

  lemma IdealDequeue<T>(b: Box<T>, items: seq<T>, calls: nat, closed: bool)
    requires Ideal(b, items, calls, closed)
    ensures Ideal(Step(b, Dequeue), items, calls + 1, closed)
  {
  }

  lemma IdealClose<T>(b: Box<T>, items: seq<T>, calls: nat, closed: bool)
    requires Ideal(b, items, calls, closed)
    ensures Ideal(Step(b, Close), items, calls, true)
  {
    forall t | |items| <= t < calls && !closed ensures t in b.waiters {
      assert b.waiters[t - |items|] == t;
    }
    assert forall t :: t in b.waiters ==> |items| <= t < calls;
  }

  lemma IdealStep<T>(b: Box<T>, op: Op<T>, items: seq<T>, calls: nat, closed: bool)
    requires Ideal(b, items, calls, closed)
    ensures Ideal(Step(b, op),
                  items + (if op.Enqueue? && Judge(b) == Accepted then [op.item] else []),
                  calls + (if op.Dequeue? then 1 else 0),
                  closed || op.Close?)
  {
    assert items + [] == items;
    match op {
      case Enqueue(item) =>
        if Judge(b) == Accepted {
          IdealEnqueue(b, item, items, calls, closed);
        }
      case Dequeue => IdealDequeue(b, items, calls, closed);
      case Close => IdealClose(b, items, calls, closed);
    }
  }

  /** Every run, with any number of waiting consumers, leaves exactly the ideal mailbox. */
  lemma {:induction false} RunIsIdeal<T>(capacity: nat, ops: seq<Op<T>>)
    ensures Ideal(Run(capacity, ops), AcceptedItems(capacity, ops), Calls(ops), WasClosed(ops))
    ensures Run(capacity, ops).capacity == capacity
    ensures |Run(capacity, ops).buffer| <= capacity
  {
    if ops != [] {
      var before, last := ops[..|ops| - 1], ops[|ops| - 1];
      RunIsIdeal(capacity, before);
      IdealStep(Run(capacity, before), last, AcceptedItems(capacity, before), Calls(before), WasClosed(before));
      assert WasClosed(ops) <==> WasClosed(before) || last.Close? by {
        if WasClosed(before) {
          var i :| 0 <= i < |before| && before[i].Close?;
          assert ops[i].Close?;
        }
      }
    }
  }

  function Settled<T>(b: Box<T>, t: nat): seq<T> {
    if t in b.resolved && b.resolved[t].Some? then [b.resolved[t].value] else []
  }

  /** The items received by the first `n` calls, in call order. */
  function Delivered<T>(b: Box<T>, n: nat): seq<T> {
    if n == 0 then [] else Delivered(b, n - 1) + Settled(b, n - 1)
  }

  lemma {:induction false} DeliveredIsPrefix<T>(b: Box<T>, items: seq<T>, calls: nat, closed: bool, n: nat)
    requires Ideal(b, items, calls, closed) && n <= calls
    ensures Delivered(b, n) == items[..if n < |items| then n else |items|]
  {
    if n > 0 {
      DeliveredIsPrefix(b, items, calls, closed, n - 1);
    }
  }

  lemma IdealConserves<T>(b: Box<T>, items: seq<T>, calls: nat, closed: bool)
    requires Ideal(b, items, calls, closed)
    ensures Delivered(b, calls) + b.buffer == items
    ensures b.buffer == [] || b.waiters == []
  {
    DeliveredIsPrefix(b, items, calls, closed, calls);
  }

  /** Conservation: what consumers received in dequeue order, then the buffer, is what was accepted. */
  lemma Conservation<T>(capacity: nat, ops: seq<Op<T>>)
    ensures var b := Run(capacity, ops);
      && Delivered(b, b.calls) + b.buffer == AcceptedItems(capacity, ops)
      && (b.buffer == [] || b.waiters == [])
      && |b.buffer| <= capacity
  {
    var b, items := Run(capacity, ops), AcceptedItems(capacity, ops);
    RunIsIdeal(capacity, ops);
    IdealConserves(b, items, Calls(ops), WasClosed(ops));
  }

  /** A null is only ever seen on a closed mailbox whose every accepted item went to an earlier call. */
  lemma DrainsBeforeNull<T>(capacity: nat, ops: seq<Op<T>>, t: nat)
    requires t in Run(capacity, ops).resolved && Run(capacity, ops).resolved[t] == None
    ensures WasClosed(ops)
    ensures Run(capacity, ops).buffer == [] && |AcceptedItems(capacity, ops)| <= t
    ensures forall k :: 0 <= k < |AcceptedItems(capacity, ops)| ==>
              k in Run(capacity, ops).resolved && Run(capacity, ops).resolved[k] == Some(AcceptedItems(capacity, ops)[k])
  {
    RunIsIdeal(capacity, ops);
  }

  /** Acceptance as a caller sees it: open, and fewer than `capacity` items ahead of the consumers. */
  lemma AcceptsExactly<T>(capacity: nat, ops: seq<Op<T>>)
    requires capacity >= 1
    ensures Judge(Run(capacity, ops)) == Accepted <==>
            !WasClosed(ops) && |AcceptedItems(capacity, ops)| < Calls(ops) + capacity
  {
    RunIsIdeal(capacity, ops);
  }

  // ---------------------------------------------------------------- The class

  /** Settles every waiting promise with null, in order. */
  method WakeAll<T>(waiters: seq<nat>, resolved: map<nat, Option<T>>) returns (more: map<nat, Option<T>>)
    ensures more == resolved + map t | t in waiters :: None
  {
    more := resolved;
    for i := 0 to |waiters|
      invariant more == resolved + map t | t in waiters[..i] :: None
    {
      more := more[waiters[i] := None];
    }
    assert waiters[..|waiters|] == waiters;
  }

  class Mailbox<T> {
    const capacity: nat
    var buffer: seq<T>
    var waiters: seq<nat>
    var closed: bool
    var calls: nat
    var resolved: map<nat, Option<T>>

    ghost function View(): Box<T>
      reads this
    {
      Box(capacity, buffer, waiters, closed, calls, resolved)
    }

    constructor (capacity: nat)
      requires capacity >= 1
      ensures View() == Empty(capacity)
    {
      this.capacity := capacity;
      buffer, waiters, closed, calls, resolved := [], [], false, 0, map[];
    }

    method Enqueue(item: T) returns (v: Verdict)
      modifies this
      ensures v == old(Judge(View()))
      ensures View() == Step(old(View()), Op.Enqueue(item))
    {
      if closed {
        return Closed;
      }
      if |waiters| > 0 {
        resolved := resolved[waiters[0] := Some(item)];
        waiters := waiters[1..];
        return Accepted;
      }
      if |buffer| >= capacity {
        return Full;
      }
      buffer := buffer + [item];
      return Accepted;
    }

    method Dequeue() returns (ticket: nat)
      modifies this
      ensures ticket == old(calls)
      ensures View() == Step(old(View()), Op.Dequeue)
    {
      ticket := calls;
      calls := calls + 1;
      if |buffer| > 0 {
        resolved := resolved[ticket := Some(buffer[0])];
        buffer := buffer[1..];
      } else if closed {
        resolved := resolved[ticket := None];
      } else {
        waiters := waiters + [ticket];
      }
    }

    method Close()
      modifies this
      ensures View() == Step(old(View()), Op.Close)
    {
      if closed {
        return;
      }
      closed := true;
      resolved := WakeAll(waiters, resolved);
      waiters := [];
    }
  }

  /** `new Mailbox(capacity)`: refused below 1. */
  method Open<T>(capacity: int) returns (m: Mailbox?<T>)
    ensures m == null <==> capacity < 1
    ensures m != null ==> fresh(m) && m.View() == Empty(capacity)
  {
    if capacity < 1 {
      return null;
    }
    m := new Mailbox(capacity);
  }
}
