/** How often the handler of a tell can run: at-least-once delivery, bounded from above. */
module Redelivery {
  import opened Wrappers
  import opened Events
  import opened Memory
  import opened Inbox
  import opened Storage
  import opened Host
  import opened Recovery
  import opened Delivery

  /** The worker runs the handler of this entry. */
  predicate Handles<S>(s: Sys<S>, step: Step, r: InboxRecord) {
    step.Handle? && s.host.Up? && s.host.live.turn == Handling(ItemOf(r))
  }

  /** An activation finds the entry pending, and will offer it again. */
  ghost predicate Refinds<S>(cfg: Config<S>, s: Sys<S>, step: Step, r: InboxRecord) {
    var t := Next(cfg, s, step);
    !s.host.Up? && t.host.Up? && r in t.host.live.offer
  }

  ghost function HandlerRuns<S>(cfg: Config<S>, steps: seq<Step>, r: InboxRecord): nat {
    if steps == [] then 0
    else
      var before, last := steps[..|steps| - 1], steps[|steps| - 1];
      HandlerRuns(cfg, before, r) + if Handles(Run(cfg, before), last, r) then 1 else 0
  }

  ghost function Refound<S>(cfg: Config<S>, steps: seq<Step>, r: InboxRecord): nat {
    if steps == [] then 0
    else
      var before, last := steps[..|steps| - 1], steps[|steps| - 1];
      Refound(cfg, before, r) + if Refinds(cfg, Run(cfg, before), last, r) then 1 else 0
  }

  // ---------------------------------------------------------------- Places

  /** In how many places of an open host the entry waits for its handler. */
  function InLine<S>(live: Live<S>, r: InboxRecord): nat {
    multiset(live.buffer)[ItemOf(r)] + multiset(live.offer)[r] + if live.turn == Handling(ItemOf(r)) then 1 else 0
  }

  function Places<S>(s: Sys<S>, r: InboxRecord): nat {
    (if ItemOf(r) in s.tells then 1 else 0) + if s.host.Up? then InLine(s.host.live, r) else 0
  }

  function Issues<S>(s: Sys<S>, r: InboxRecord): nat { multiset(s.past.issued)[r] }

  lemma FirstOfLine<T>(line: seq<T>, x: T)
    requires line != []
    ensures multiset(line)[x] == multiset(line[1..])[x] + if line[0] == x then 1 else 0
  {
    assert line == [line[0]] + line[1..];
  }

  /** The next turn takes its item out of the buffer. */
  lemma FinishTakes<S>(live: Live<S>, r: InboxRecord)
    ensures InLine(Finish(live), r) + (if live.turn == Handling(ItemOf(r)) then 1 else 0) == InLine(live, r)
  {
    if live.buffer != [] {
      FirstOfLine(live.buffer, ItemOf(r));
    }
  }

  lemma EnqueueAdds<S>(capacity: nat, live: Live<S>, item: Item, r: InboxRecord)
    ensures InLine(Enqueue(capacity, live, item), r) <= InLine(live, r) + if item == ItemOf(r) then 1 else 0
    ensures Enqueue(capacity, live, item).offer == live.offer
  {
  }

  lemma {:induction false} EnqueueAllAdds<S>(capacity: nat, live: Live<S>, records: seq<InboxRecord>, r: InboxRecord)
    ensures InLine(EnqueueAll(capacity, live, records), r) <= InLine(live, r) + multiset(records)[r]
    decreases |records|
  {
    if records != [] {
      var next := Enqueue(capacity, live, ItemOf(records[0]));
      EnqueueAdds(capacity, live, ItemOf(records[0]), r);
      EnqueueAllAdds(capacity, next, records[1..], r);
      FirstOfLine(records, r);
    }
  }

  /** What a step can do to the places of an entry: a handler run takes one, an issue or an activation adds one. */
  ghost predicate Counts<S>(cfg: Config<S>, s: Sys<S>, step: Step, r: InboxRecord) {
    var t := Next(cfg, s, step);
    Places(t, r) + (if Handles(s, step, r) then 1 else 0) + Issues(s, r) <=
    Places(s, r) + (if Refinds(cfg, s, step, r) then 1 else 0) + Issues(t, r)
  }

  /** A handler run ends the turn, or leaves it before an ack or a fold. */
  lemma HandledShape<S>(cfg: Config<S>, s: Sys<S>, outcome: Outcome)
    requires s.host.Up? && s.host.live.turn.Handling?
    ensures var t, live := Handled(cfg, s, outcome), s.host.live;
      && t.host.Up? && t.tells == s.tells && t.past.issued == s.past.issued
      && (t.host.live == Finish(live) || t.host.live == live.(turn := t.host.live.turn))
      && (t.host.live != Finish(live) ==> !t.host.live.turn.Handling?)
  {
  }

  lemma HandleCounts<S>(cfg: Config<S>, s: Sys<S>, step: Step, r: InboxRecord)
    requires step.Handle?
    ensures Counts(cfg, s, step, r)
  {
    if s.host.Up? && s.host.live.turn.Handling? {
      HandledShape(cfg, s, step.outcome);
      FinishTakes(s.host.live, r);
    }
  }

  lemma FoldCounts<S>(cfg: Config<S>, s: Sys<S>, r: InboxRecord)
    ensures Counts(cfg, s, FoldBatch, r)
  {
  }

  lemma TurnCounts<S>(cfg: Config<S>, s: Sys<S>, step: Step, r: InboxRecord)
    requires step.AckItem? || step.Settle?
    ensures Counts(cfg, s, step, r)
  {
    if s.host.Up? {
      FinishTakes(s.host.live, r);
    }
  }

  lemma FlushCounts<S>(cfg: Config<S>, s: Sys<S>, step: Step, r: InboxRecord)
    requires step.FlushTurn? || step.Close? || step.Deactivate? || step.BumpFence? || step.DropAck? || step.Crash?
    ensures Counts(cfg, s, step, r)
  {
    if step.FlushTurn? && s.host.Up? {
      FinishTakes(s.host.live.(mem := FlushMem(s.store, s.host.live.mem)), r);
    }
  }

  lemma MailCounts<S>(cfg: Config<S>, s: Sys<S>, step: Step, r: InboxRecord)
    requires step.TellEnqueue? || step.CallEnqueue? || step.Offer?
    ensures Counts(cfg, s, step, r)
  {
    if s.host.Up? {
      var live := s.host.live;
      match step {
        case TellEnqueue(item) => EnqueueAdds(cfg.capacity, live, item, r);
        case CallEnqueue(name, args) => EnqueueAdds(cfg.capacity, live, Call(name, args), r);
        case Offer =>
          assert InLine(live, r) == InLine(live.(offer := []), r) + multiset(live.offer)[r];
          EnqueueAllAdds(cfg.capacity, live.(offer := []), live.offer, r);
      }
    }
  }

  lemma IssueCounts<S>(cfg: Config<S>, s: Sys<S>, step: Step, r: InboxRecord)
    requires step.TellAppend?
    ensures Counts(cfg, s, step, r)
  {
    if s.host.Up? {
      var new' := InboxRecord(InboxId(step.now, s.next + step.skip), step.kind, step.payload);
      assert multiset(s.past.issued + [new'])[r] == multiset(s.past.issued)[r] + if new' == r then 1 else 0;
      assert ItemOf(new') == ItemOf(r) ==> new' == r;
    }
  }

  /** No id is issued twice. */
  lemma {:induction false} IssuedOnce(issued: seq<InboxRecord>, r: InboxRecord)
    requires forall i, j :: 0 <= i < j < |issued| ==> issued[i].id.n < issued[j].id.n
    ensures multiset(issued)[r] <= 1
  {
    if issued != [] {
      var rest := issued[1..];
      IssuedOnce(rest, r);
      FirstOfLine(issued, r);
      assert issued[0] !in rest by {
        assert forall j :: 0 <= j < |rest| ==> rest[j] == issued[j + 1];
      }
    }
  }

  lemma {:induction false} PendingIsFewer(issued: seq<InboxRecord>, acked: set<InboxId>, r: InboxRecord)
    ensures multiset(Pending(issued, acked))[r] <= multiset(issued)[r]
  {
    if issued != [] {
      var rest, pending := issued[1..], Pending(issued, acked);
      PendingIsFewer(rest, acked, r);
      FirstOfLine(issued, r);
      if issued[0].id in acked {
        assert pending == Pending(rest, acked);
      } else {
        assert pending[1..] == Pending(rest, acked);
        FirstOfLine(pending, r);
      }
    }
  }

  /** A host that opens has an entry in its offer at most, and there once. */
  lemma OpenedOnce<S>(s: Sys<S>, store: Store<S>, m: Mem<S>, r: InboxRecord)
    requires Accounted(s) && store.inbox == s.store.inbox
    ensures Opened(store, m).Up?
    ensures InLine(Opened(store, m).live, r) <= if r in Opened(store, m).live.offer then 1 else 0
  {
    BooksBucket(store.inbox, s.past.issued, s.past.fates.Keys);
    PendingIsFewer(s.past.issued, s.past.fates.Keys, r);
    IssuedOnce(s.past.issued, r);
  }

  lemma ActivateCounts<S>(cfg: Config<S>, s: Sys<S>, step: Step, r: InboxRecord)
    requires (step.Start? || step.ReplayTail? || step.FlushTail?) && Accounted(s)
    ensures Counts(cfg, s, step, r)
  {
    if step.ReplayTail? && s.host.Loaded? {
      OpenedOnce(s, s.store, ReplayMem(cfg, s.store, s.host.mem), r);
    } else if step.FlushTail? && s.host.Replayed? {
      OpenedOnce(s, FlushStore(s.store, s.host.mem), FlushMem(s.store, s.host.mem), r);
    }
  }

  lemma NextCounts<S>(cfg: Config<S>, s: Sys<S>, step: Step, r: InboxRecord)
    requires Accounted(s)
    ensures Counts(cfg, s, step, r)
  {
    match step {
      case Start => ActivateCounts(cfg, s, step, r);
      case ReplayTail => ActivateCounts(cfg, s, step, r);
      case FlushTail => ActivateCounts(cfg, s, step, r);
      case Offer => MailCounts(cfg, s, step, r);
      case TellEnqueue(_) => MailCounts(cfg, s, step, r);
      case CallEnqueue(_, _) => MailCounts(cfg, s, step, r);
      case TellAppend(_, _, _, _) => IssueCounts(cfg, s, step, r);
      case Handle(_) => HandleCounts(cfg, s, step, r);
      case FoldBatch => FoldCounts(cfg, s, r);
      case AckItem(_) => TurnCounts(cfg, s, step, r);
      case Settle => TurnCounts(cfg, s, step, r);
      case _ => FlushCounts(cfg, s, step, r);
    }
  }

  /** What has run and what may still run never exceeds the issues and the activations that found the entry. */
  lemma {:induction false} RunCounts<S>(cfg: Config<S>, steps: seq<Step>, r: InboxRecord)
    ensures HandlerRuns(cfg, steps, r) + Places(Run(cfg, steps), r) <=
            Issues(Run(cfg, steps), r) + Refound(cfg, steps, r)
  {
    if steps != [] {
      var before := steps[..|steps| - 1];
      RunCounts(cfg, before, r);
      RunAccounted(cfg, before);
      NextCounts(cfg, Run(cfg, before), steps[|steps| - 1], r);
    }
  }

  /**
   * The handler of a tell runs once, plus once for each activation that found the tell still pending:
   * whatever crashes, whatever acks are rejected, and whatever tells are in flight meanwhile.
   */
  lemma HandlerRunsAreBounded<S>(cfg: Config<S>, steps: seq<Step>, r: InboxRecord)
    ensures HandlerRuns(cfg, steps, r) <= 1 + Refound(cfg, steps, r)
    ensures r !in Run(cfg, steps).past.issued ==> HandlerRuns(cfg, steps, r) <= Refound(cfg, steps, r)
  {
    RunCounts(cfg, steps, r);
    RunAccounted(cfg, steps);
    IssuedOnce(Run(cfg, steps).past.issued, r);
  }

  // ---------------------------------------------------------------- The bound is met

  /**
   * A tell is stored, its host closes and is activated again before the tell reaches the mailbox: the
   * activation finds the entry pending, and the tell is put into the new mailbox as well.
   */
  function StaleTell(kind: string): seq<Step> {
    var item := Tell(InboxId(0, 0), kind, Undefined);
    [Start, ReplayTail] + [TellAppend(0, 0, kind, Undefined)] + [Close] + [Deactivate] + [Start] + [ReplayTail] +
    [TellEnqueue(item)] + [Offer]
  }

  /** Its handler returns no events, the ack passes, and it is handled again. */
  function HandledTwice(kind: string): seq<Step> {
    StaleTell(kind) + [Handle(Returns(Arr([])))] + [AckItem(true)] + [Handle(Returns(Arr([])))]
  }

  lemma StaleTellOpens<S>(cfg: Config<S>, kind: string)
    ensures var r := InboxRecord(InboxId(0, 0), kind, Undefined);
      var told := Next(cfg, Idle(cfg), TellAppend(0, 0, kind, Undefined));
      var s := Next(cfg, Next(cfg, Next(cfg, Next(cfg, told, Close), Deactivate), Start), ReplayTail);
      && s.host == Up(Live(Mem(cfg.initial, 0, 0, false, 0), [], false, Waiting, [r])) && s.tells == {ItemOf(r)}
  {
    var r := InboxRecord(InboxId(0, 0), kind, Undefined);
    var told := Next(cfg, Idle(cfg), TellAppend(0, 0, kind, Undefined));
    assert told.store == Store(Some(0), map[], [], Inbox([r], {}));
    var down := Next(cfg, Next(cfg, told, Close), Deactivate);
    assert down.host == Down && down.store == told.store && down.tells == {ItemOf(r)};
    assert Latest(down.store).None?;
    assert Pending([r], {}) == [r] by {
      assert [r][1..] == [];
    }
  }

  lemma RunCount<S>(cfg: Config<S>, steps: seq<Step>, step: Step, r: InboxRecord)
    ensures Run(cfg, steps + [step]) == Next(cfg, Run(cfg, steps), step)
    ensures HandlerRuns(cfg, steps + [step], r) == HandlerRuns(cfg, steps, r) + if Handles(Run(cfg, steps), step, r) then 1 else 0
  {
    assert (steps + [step])[..|steps|] == steps;
  }

  lemma {:induction false} NoHandle<S>(cfg: Config<S>, steps: seq<Step>, r: InboxRecord)
    requires forall i :: 0 <= i < |steps| ==> !steps[i].Handle?
    ensures HandlerRuns(cfg, steps, r) == 0
  {
    if steps != [] {
      NoHandle(cfg, steps[..|steps| - 1], r);
    }
  }

  lemma StaleTellWaitsTwice<S>(cfg: Config<S>, kind: string)
    requires cfg.capacity >= 1
    ensures var item := Tell(InboxId(0, 0), kind, Undefined);
      Run(cfg, StaleTell(kind)).host ==
      Up(Live(Mem(cfg.initial, 0, 0, false, 0), [item], false, Handling(item), []))
  {
    var r, item := InboxRecord(InboxId(0, 0), kind, Undefined), Tell(InboxId(0, 0), kind, Undefined);
    var s2: seq<Step> := [Start, ReplayTail];
    var s3 := s2 + [TellAppend(0, 0, kind, Undefined)];
    var s4 := s3 + [Close];
    var s5 := s4 + [Deactivate];
    var s6 := s5 + [Start];
    var s7 := s6 + [ReplayTail];
    assert Run(cfg, s2) == Idle(cfg) by {
      assert [] + [Start] == [Start] && [Start] + [ReplayTail] == s2;
      RunSnoc(cfg, [], Start);
      RunSnoc(cfg, [Start], ReplayTail);
      FirstActivation(cfg);
    }
    RunSnoc(cfg, s2, TellAppend(0, 0, kind, Undefined));
    RunSnoc(cfg, s3, Close);
    RunSnoc(cfg, s4, Deactivate);
    RunSnoc(cfg, s5, Start);
    RunSnoc(cfg, s6, ReplayTail);
    StaleTellOpens(cfg, kind);
    RunSnoc(cfg, s7, TellEnqueue(item));
    RunSnoc(cfg, s7 + [TellEnqueue(item)], Offer);
    BothPlaces(cfg, Run(cfg, s7), r);
  }

  lemma BothPlaces<S>(cfg: Config<S>, s: Sys<S>, r: InboxRecord)
    requires cfg.capacity >= 1 && s.tells == {ItemOf(r)}
    requires s.host.Up? && s.host.live == Live(s.host.live.mem, [], false, Waiting, [r])
    ensures Next(cfg, Next(cfg, s, TellEnqueue(ItemOf(r))), Offer).host ==
            Up(Live(s.host.live.mem, [ItemOf(r)], false, Handling(ItemOf(r)), []))
  {
    var live := s.host.live.(turn := Handling(ItemOf(r)), offer := []);
    assert EnqueueAll(cfg.capacity, live, [r]) == Enqueue(cfg.capacity, live, ItemOf(r)) by {
      assert [r][1..] == [];
    }
    assert Enqueue(cfg.capacity, live, ItemOf(r)).buffer == [ItemOf(r)];
  }

  lemma AckedAndHandled<S>(cfg: Config<S>, s: Sys<S>, item: Item)
    requires item.Tell? && cfg.handles(item.kind)
    requires s.host.Up? && s.host.live == Live(s.host.live.mem, [item], false, Handling(item), [])
    ensures var t := Next(cfg, Next(cfg, s, Handle(Returns(Arr([])))), AckItem(true));
      && t.host.Up? && t.host.live.turn == Handling(item)
      && item.id in t.past.fates && t.past.fates[item.id].Committed?
  {
    var acking := Next(cfg, s, Handle(Returns(Arr([]))));
    assert acking.host == Up(s.host.live.(turn := Acking(item, Committed(|s.store.log|, []), false)));
  }

  lemma TwiceFrom<S>(cfg: Config<S>, steps: seq<Step>, r: InboxRecord)
    requires cfg.handles(r.kind) && HandlerRuns(cfg, steps, r) == 0 && Run(cfg, steps).host.Up?
    requires var live := Run(cfg, steps).host.live; live == Live(live.mem, [ItemOf(r)], false, Handling(ItemOf(r)), [])
    ensures HandlerRuns(cfg, steps + [Handle(Returns(Arr([])))] + [AckItem(true)] + [Handle(Returns(Arr([])))], r) == 2
  {
    var handled := steps + [Handle(Returns(Arr([])))];
    RunCount(cfg, steps, Handle(Returns(Arr([]))), r);
    RunCount(cfg, handled, AckItem(true), r);
    AckedAndHandled(cfg, Run(cfg, steps), ItemOf(r));
    RunCount(cfg, handled + [AckItem(true)], Handle(Returns(Arr([]))), r);
  }

  lemma Undisturbed(kind: string)
    ensures Crash !in HandledTwice(kind) && AckItem(false) !in HandledTwice(kind)
    ensures forall i :: 0 <= i < |StaleTell(kind)| ==> !StaleTell(kind)[i].Handle?
  {
    var item := Tell(InboxId(0, 0), kind, Undefined);
    assert StaleTell(kind) == [Start, ReplayTail, TellAppend(0, 0, kind, Undefined), Close, Deactivate, Start, ReplayTail,
                               TellEnqueue(item), Offer];
  }

  lemma TwiceAfterStale<S>(cfg: Config<S>, kind: string)
    requires cfg.capacity >= 1 && cfg.handles(kind)
    requires HandlerRuns(cfg, StaleTell(kind), InboxRecord(InboxId(0, 0), kind, Undefined)) == 0
    ensures HandlerRuns(cfg, HandledTwice(kind), InboxRecord(InboxId(0, 0), kind, Undefined)) == 2
  {
    StaleTellWaitsTwice(cfg, kind);
    TwiceFrom(cfg, StaleTell(kind), InboxRecord(InboxId(0, 0), kind, Undefined));
  }

  /** A tell can be handled twice without a crash and with every ack accepted, the second time after its ack. */
  lemma StaleTellRunsTwice<S>(cfg: Config<S>, kind: string)
    requires cfg.capacity >= 1 && cfg.handles(kind)
    ensures Crash !in HandledTwice(kind) && AckItem(false) !in HandledTwice(kind)
    ensures HandlerRuns(cfg, HandledTwice(kind), InboxRecord(InboxId(0, 0), kind, Undefined)) == 2
  {
    Undisturbed(kind);
    NoHandle(cfg, StaleTell(kind), InboxRecord(InboxId(0, 0), kind, Undefined));
    TwiceAfterStale(cfg, kind);
  }
}
