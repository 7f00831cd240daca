/** What one undisturbed turn does with the inbox entry it handles. */
module Turns {
  import opened Wrappers
  import opened Events
  import opened Inbox
  import opened Storage
  import opened Host
  import opened Memory
  import opened Delivery
  import R = Recovery

  /** The steps of a turn in which nothing fails but what has to. */
  function TurnSteps(outcome: Outcome): seq<Step> {
    [Handle(outcome), FoldBatch, AckItem(true), Settle, FlushTurn]
  }

  /** The handler ran and threw, returned something else than events, or its events met another owner's fence. */
  predicate Fails<S>(cfg: Config<S>, s: Sys<S>, item: Item, outcome: Outcome)
    requires s.host.Up?
  {
    cfg.handles(NameOf(item)) &&
    (outcome.Throws? || !outcome.value.Arr? || !AllNormal(outcome.value.items) ||
     (outcome.value.items != [] && s.host.live.mem.token != FenceOf(s.store)))
  }

  function Waits<S>(s: Sys<S>): seq<InboxRecord> { Pending(s.store.inbox.bucket, s.store.inbox.acked) }

  lemma {:induction false} PendingIff(bucket: seq<InboxRecord>, acked: set<InboxId>, r: InboxRecord)
    ensures r in Pending(bucket, acked) <==> r in bucket && r.id !in acked
  {
    if bucket != [] {
      PendingIff(bucket[1..], acked, r);
    }
  }

  lemma AckedWaits(inbox: Inbox, issued: seq<InboxRecord>, fated: set<InboxId>, id: InboxId, r: InboxRecord)
    requires Books(inbox, issued, fated)
    ensures var after := Ack(inbox, {id});
      r in Pending(after.bucket, after.acked) <==> r in Pending(inbox.bucket, inbox.acked) && r.id != id
  {
    AckBooks(inbox, issued, fated, id);
    BooksBucket(inbox, issued, fated);
    BooksBucket(Ack(inbox, {id}), issued, fated + {id});
    PendingIff(issued, fated, r);
    PendingIff(issued, fated + {id}, r);
  }

  /** After the handler: what is left of a turn acknowledges its entry exactly if an ack is due. */
  lemma RestOfTurn<S>(cfg: Config<S>, s: Sys<S>)
    requires s.host.Up?
    requires var turn := s.host.live.turn;
      turn.Waiting? || turn.Exited? || turn.Handling? || (turn.Acking? && turn.item.Tell?) ||
      (turn.Appended? && turn.item.Tell? && |turn.events| <= turn.seqNo && AllNormal(turn.events))
    ensures var t := Next(cfg, Next(cfg, Next(cfg, Next(cfg, s, FoldBatch), AckItem(true)), Settle), FlushTurn);
      t.store.inbox == (if s.host.live.turn.Acking? || s.host.live.turn.Appended?
                        then Ack(s.store.inbox, {s.host.live.turn.item.id}) else s.store.inbox)
  {
    var s1 := Next(cfg, s, FoldBatch);
    var s2 := Next(cfg, s1, AckItem(true));
    assert s2.store.inbox == (if s.host.live.turn.Acking? || s.host.live.turn.Appended?
                              then Ack(s.store.inbox, {s.host.live.turn.item.id}) else s.store.inbox);
    assert Next(cfg, Next(cfg, s2, Settle), FlushTurn).store.inbox == s2.store.inbox;
  }

  lemma HandledTurn<S>(cfg: Config<S>, s: Sys<S>, outcome: Outcome)
    requires s.host.Up? && s.host.live.turn.Handling? && s.host.live.turn.item.Tell? && s.store.fence.Some?
    ensures var t := Next(cfg, s, Handle(outcome));
      && t.host.Up? && t.store.inbox == s.store.inbox
      && var turn := t.host.live.turn;
      if Fails(cfg, s, s.host.live.turn.item, outcome) then turn.Waiting? || turn.Exited? || turn.Handling?
      else
        && (turn.Acking? || (turn.Appended? && |turn.events| <= turn.seqNo && AllNormal(turn.events)))
        && turn.item == s.host.live.turn.item
  {
  }

  /**
   * In every run: a tell is acknowledged by its turn exactly if the turn does not fail, also when nobody
   * handles its kind; a failed one still waits for the next activation, and so does every other entry.
   */
  lemma TurnAcknowledgesIff<S>(cfg: Config<S>, steps: seq<Step>, outcome: Outcome, r: InboxRecord)
    requires var s := Run(cfg, steps); s.host.Up? && s.host.live.turn.Handling? && s.host.live.turn.item.Tell?
    ensures var s := Run(cfg, steps);
      var item := s.host.live.turn.item;
      var t := Run(cfg, steps + TurnSteps(outcome));
      r in Waits(t) <==> r in Waits(s) && (r.id == item.id ==> Fails(cfg, s, item, outcome))
  {
    var s := Run(cfg, steps);
    var item := s.host.live.turn.item;
    RunThen(cfg, steps, TurnSteps(outcome));
    RunFive(cfg, s, Handle(outcome), FoldBatch, AckItem(true), Settle, FlushTurn);
    R.RunShape(cfg, steps);
    RunAccounted(cfg, steps);
    var s1 := Next(cfg, s, Handle(outcome));
    HandledTurn(cfg, s, outcome);
    RestOfTurn(cfg, s1);
    AckedWaits(s.store.inbox, s.past.issued, s.past.fates.Keys, item.id, r);
  }

  // ---------------------------------------------------------------- A tell that finds no room

  /** The mailbox takes no more: open, but with a busy worker and a full buffer. */
  predicate NoRoom<S>(cfg: Config<S>, host: Host<S>) {
    host.Up? && !host.live.closed && !host.live.turn.Waiting? && |host.live.buffer| >= cfg.capacity
  }

  lemma EnqueuedTell<S>(cfg: Config<S>, s: Sys<S>, item: Item)
    requires item in s.tells && item.Tell? && item.id !in s.drops && (s.host.Up? || s.host.Down?)
    ensures var t := Next(cfg, s, TellEnqueue(item));
      && t.tells == s.tells - {item} && t.store == s.store && (item.id in t.drops <==> NoRoom(cfg, s.host))
  {
  }

  /**
   * In every run: a tell that arrives with its entry stored is dropped exactly if the mailbox of its host has
   * no room. One that finds the host gone or closing keeps its entry, for the next activation.
   */
  lemma DroppedIffNoRoom<S>(cfg: Config<S>, steps: seq<Step>, item: Item, r: InboxRecord)
    requires var s := Run(cfg, steps);
      item in s.tells && item.Tell? && item.id !in s.drops && (s.host.Up? || s.host.Down?)
    ensures var s := Run(cfg, steps);
      var t := Run(cfg, steps + [TellEnqueue(item)] + [DropAck(item.id)]);
      && item !in t.tells && item.id !in t.drops
      && (r in Waits(t) <==> r in Waits(s) && (r.id == item.id ==> !NoRoom(cfg, s.host)))
  {
    var s := Run(cfg, steps);
    var s1 := Next(cfg, s, TellEnqueue(item));
    EnqueuedTell(cfg, s, item);
    assert Run(cfg, steps + [TellEnqueue(item)] + [DropAck(item.id)]) == Next(cfg, s1, DropAck(item.id)) by {
      RunSnoc(cfg, steps, TellEnqueue(item));
      RunSnoc(cfg, steps + [TellEnqueue(item)], DropAck(item.id));
    }
    assert Books(s.store.inbox, s.past.issued, s.past.fates.Keys) by {
      RunAccounted(cfg, steps);
    }
    AckedWaits(s.store.inbox, s.past.issued, s.past.fates.Keys, item.id, r);
  }
}
