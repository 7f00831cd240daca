/** Durable tells: what happens to every inbox entry, over every run of the host machine. */
module Delivery {
  import opened Wrappers
  import opened Events
  import opened Inbox
  import opened Storage
  import opened Host
  import opened Memory
  import opened Recovery
  import M = Mailbox

  // ---------------------------------------------------------------- What every step keeps

  /** A committed entry's rows are in the log, where the fate says. */
  predicate FateTrue(log: seq<EventRow>, fate: Fate) {
    fate.Committed? ==> fate.at + |fate.rows| <= |log| && log[fate.at..fate.at + |fate.rows|] == fate.rows
  }

  /** A tell item carries an entry that the inbox issued, unchanged. */
  predicate Known(issued: seq<InboxRecord>, item: Item) {
    item.Tell? ==> InboxRecord(item.id, item.kind, item.payload) in issued
  }

  ghost predicate TurnKnown(issued: seq<InboxRecord>, log: seq<EventRow>, turn: Turn) {
    match turn
    case Handling(item) => Known(issued, item)
    case Appended(item, _, _) => Known(issued, item)
    case Acking(item, fate, _) => Known(issued, item) && FateTrue(log, fate)
    case _ => true
  }

  ghost predicate LiveKnown<S>(issued: seq<InboxRecord>, log: seq<EventRow>, live: Live<S>) {
    && (forall r :: r in live.offer ==> r in issued)
    && (forall item :: item in live.buffer ==> Known(issued, item))
    && TurnKnown(issued, log, live.turn)
  }

  ghost predicate AllKnown<S>(
      issued: seq<InboxRecord>, log: seq<EventRow>, host: Host<S>, tells: set<Item>, drops: set<InboxId>) {
    && (forall item :: item in tells ==> Known(issued, item))
    && drops <= Ids(issued)
    && (host.Up? ==> LiveKnown(issued, log, host.live))
  }

  predicate Ascending(issued: seq<InboxRecord>, next: nat) {
    && (forall i :: 0 <= i < |issued| ==> issued[i].id.n < next)
    && (forall i, j :: 0 <= i < j < |issued| ==> issued[i].id.n < issued[j].id.n)
  }

  ghost predicate FatesTrue(issued: seq<InboxRecord>, log: seq<EventRow>, fates: map<InboxId, Fate>) {
    && fates.Keys <= Ids(issued)
    && forall id :: id in fates ==> FateTrue(log, fates[id])
  }

  /** The compacted inbox stands for everything issued, with the entries that have a fate acked. */
  ghost predicate Books(inbox: Inbox, issued: seq<InboxRecord>, fated: set<InboxId>) {
    exists dropped: nat :: Refines(inbox, History(issued, fated), dropped)
  }

  ghost predicate Accounted<S>(s: Sys<S>) {
    && Ascending(s.past.issued, s.next)
    && FatesTrue(s.past.issued, s.store.log, s.past.fates)
    && AllKnown(s.past.issued, s.store.log, s.host, s.tells, s.drops)
    && Books(s.store.inbox, s.past.issued, s.past.fates.Keys)
  }

  // ---------------------------------------------------------------- Preservation

  lemma AckBooks(inbox: Inbox, issued: seq<InboxRecord>, fated: set<InboxId>, id: InboxId)
    requires Books(inbox, issued, fated)
    ensures Books(Ack(inbox, {id}), issued, fated + {id})
  {
    var dropped: nat :| Refines(inbox, History(issued, fated), dropped);
    AckRefines(inbox, History(issued, fated), dropped, {id});
  }

  lemma IssueBooks(inbox: Inbox, issued: seq<InboxRecord>, fated: set<InboxId>, r: InboxRecord)
    requires Books(inbox, issued, fated)
    requires r.id !in fated && forall k :: 0 <= k < |issued| ==> issued[k].id != r.id
    ensures Books(Append(inbox, r), issued + [r], fated)
  {
    var dropped: nat :| Refines(inbox, History(issued, fated), dropped);
    AppendRefines(inbox, History(issued, fated), dropped, r);
    assert Refines(Append(inbox, r), History(issued + [r], fated), dropped);
  }

  lemma BooksBucket(inbox: Inbox, issued: seq<InboxRecord>, fated: set<InboxId>)
    requires Books(inbox, issued, fated)
    ensures forall r :: r in inbox.bucket ==> r in issued
    ensures Pending(inbox.bucket, inbox.acked) == Pending(issued, fated)
  {
    var dropped: nat :| Refines(inbox, History(issued, fated), dropped);
    RefinesPending(inbox, History(issued, fated), dropped);
  }

  lemma AckKeeps<S>(s: Sys<S>, id: InboxId, fate: Fate)
    requires Accounted(s) && id in Ids(s.past.issued) && FateTrue(s.store.log, fate)
    ensures Accounted(AckOne(s, id, fate))
  {
    var after := AckOne(s, id, fate);
    assert after.past.fates.Keys == s.past.fates.Keys + {id};
    assert Books(after.store.inbox, after.past.issued, after.past.fates.Keys) by {
      AckBooks(s.store.inbox, s.past.issued, s.past.fates.Keys, id);
    }
  }

  /** Replacing the host leaves the inbox's books alone. */
  lemma HostSwapKeeps<S>(s: Sys<S>, live: Live<S>)
    requires Accounted(s) && LiveKnown(s.past.issued, s.store.log, live)
    ensures Accounted(WithLive(s, live))
  {
  }

  lemma FinishKnown<S>(issued: seq<InboxRecord>, log: seq<EventRow>, live: Live<S>)
    requires LiveKnown(issued, log, live)
    ensures LiveKnown(issued, log, Finish(live))
  {
  }

  lemma {:induction false} EnqueueAllKnown<S>(
      capacity: nat, issued: seq<InboxRecord>, log: seq<EventRow>, live: Live<S>, records: seq<InboxRecord>)
    requires LiveKnown(issued, log, live) && forall r :: r in records ==> r in issued
    ensures LiveKnown(issued, log, EnqueueAll(capacity, live, records))
    decreases |records|
  {
    if records != [] {
      EnqueueAllKnown(capacity, issued, log, Enqueue(capacity, live, ItemOf(records[0])), records[1..]);
    }
  }

  lemma {:induction false} PendingIsSubset(bucket: seq<InboxRecord>, acked: set<InboxId>)
    ensures forall r :: r in Pending(bucket, acked) <==> r in bucket && r.id !in acked
  {
    if bucket != [] {
      PendingIsSubset(bucket[1..], acked);
    }
  }

  lemma OpenedKnown<S>(s: Sys<S>, store: Store<S>, m: Mem<S>)
    requires Accounted(s) && store.inbox == s.store.inbox && store.log == s.store.log
    ensures Accounted(s.(store := store, host := Opened(store, m)))
  {
    PendingIsSubset(store.inbox.bucket, store.inbox.acked);
    BooksBucket(store.inbox, s.past.issued, s.past.fates.Keys);
  }

  lemma LongerIds(issued: seq<InboxRecord>, r: InboxRecord)
    ensures forall q :: q in issued ==> q in issued + [r]
    ensures Ids(issued) <= Ids(issued + [r])
  {
    assert forall q :: q in issued ==> q in issued + [r];
  }

  lemma IssueKeeps<S>(s: Sys<S>, r: InboxRecord, next: nat)
    requires Accounted(s) && s.next <= r.id.n < next
    ensures Accounted(s.(store := s.store.(inbox := Append(s.store.inbox, r)),
                         next := next,
                         tells := s.tells + {ItemOf(r)},
                         past := s.past.(issued := s.past.issued + [r])))
  {
    var after := s.(store := s.store.(inbox := Append(s.store.inbox, r)),
                    next := next,
                    tells := s.tells + {ItemOf(r)},
                    past := s.past.(issued := s.past.issued + [r]));
    assert r.id !in Ids(s.past.issued);
    IssueBooks(s.store.inbox, s.past.issued, s.past.fates.Keys, r);
    LongerIds(s.past.issued, r);
    IssueKnown(s.past.issued, r, s.store.log, s.host, s.tells, s.drops);
  }

  lemma IssueKnown<S>(
      issued: seq<InboxRecord>, r: InboxRecord, log: seq<EventRow>, host: Host<S>, tells: set<Item>, drops: set<InboxId>)
    requires AllKnown(issued, log, host, tells, drops)
    ensures AllKnown(issued + [r], log, host, tells + {ItemOf(r)}, drops)
  {
    LongerIds(issued, r);
    assert forall item :: Known(issued, item) ==> Known(issued + [r], item);
  }

  lemma LogGrowsKeeps<S>(s: Sys<S>, after: Sys<S>)
    requires Accounted(s)
    requires after.store.inbox == s.store.inbox && after.next == s.next
    requires after.tells == s.tells && after.drops == s.drops
    requires after.past.issued == s.past.issued && after.past.fates == s.past.fates
    requires |s.store.log| <= |after.store.log| && after.store.log[..|s.store.log|] == s.store.log
    requires after.host.Up? ==> LiveKnown(s.past.issued, after.store.log, after.host.live)
    ensures Accounted(after)
  {
    forall id | id in s.past.fates ensures FateTrue(after.store.log, s.past.fates[id]) {
      FateSurvives(s.store.log, after.store.log, s.past.fates[id]);
    }
  }

  lemma FateSurvives(log: seq<EventRow>, longer: seq<EventRow>, fate: Fate)
    requires FateTrue(log, fate) && |log| <= |longer| && longer[..|log|] == log
    ensures FateTrue(longer, fate)
  {
    if fate.Committed? {
      assert longer[fate.at..fate.at + |fate.rows|] == longer[..|log|][fate.at..fate.at + |fate.rows|];
    }
  }

  lemma HandledKeeps<S>(cfg: Config<S>, s: Sys<S>, outcome: Outcome)
    requires Shape(s) && Accounted(s) && s.host.Up? && s.host.live.turn.Handling?
    ensures Accounted(Handled(cfg, s, outcome))
  {
    var after := Handled(cfg, s, outcome);
    FinishKnown(s.past.issued, s.store.log, s.host.live);
    assert after.store.log[..|s.store.log|] == s.store.log;
    LogGrowsKeeps(s, after);
  }

  lemma FoldedKnown<S>(cfg: Config<S>, s: Sys<S>)
    requires Shape(s) && Accounted(s) && s.host.Up? && s.host.live.turn.Appended?
    ensures LiveKnown(s.past.issued, s.store.log, Folded(cfg, s.host.live))
  {
    var n, log := |s.host.live.turn.events|, s.store.log;
    assert log[|log| - n..|log| - n + n] == log[|log| - n..];
  }

  lemma KnownIsIssued(issued: seq<InboxRecord>, item: Item)
    requires Known(issued, item) && item.Tell?
    ensures item.id in Ids(issued)
  {
    assert InboxRecord(item.id, item.kind, item.payload).id in Ids(issued);
  }

  lemma AckedItemKeeps<S>(s: Sys<S>, item: Item, fate: Fate, next: Live<S>)
    requires Accounted(s) && item.Tell? && Known(s.past.issued, item) && FateTrue(s.store.log, fate)
    requires LiveKnown(s.past.issued, s.store.log, next)
    ensures Accounted(WithLive(AckOne(s, item.id, fate), next))
  {
    KnownIsIssued(s.past.issued, item);
    AckKeeps(s, item.id, fate);
    HostSwapKeeps(AckOne(s, item.id, fate), next);
  }

  lemma AckItemKeeps<S>(cfg: Config<S>, s: Sys<S>, ok: bool)
    requires Accounted(s) && s.host.Up? && s.host.live.turn.Acking? && s.host.live.turn.item.Tell?
    ensures Accounted(Next(cfg, s, AckItem(ok)))
  {
    var live := s.host.live;
    FinishKnown(s.past.issued, s.store.log, live);
    if !ok {
      HostSwapKeeps(s, Finish(live));
    } else if live.turn.settles {
      AckedItemKeeps(s, live.turn.item, live.turn.fate, live.(turn := Settling));
    } else {
      AckedItemKeeps(s, live.turn.item, live.turn.fate, Finish(live));
    }
  }

  lemma TellEnqueueKeeps<S>(cfg: Config<S>, s: Sys<S>, item: Item)
    requires Accounted(s)
    ensures Accounted(Next(cfg, s, TellEnqueue(item)))
  {
    if item in s.tells && item.Tell? {
      KnownIsIssued(s.past.issued, item);
    }
  }

  /** The steps of activation, and of a turn up to the fold. */
  lemma TurnKeeps<S>(cfg: Config<S>, s: Sys<S>, step: Step)
    requires Shape(s) && Accounted(s)
    requires step.ReplayTail? || step.FlushTail? || step.Offer? || step.Handle? || step.FoldBatch?
    ensures Accounted(Next(cfg, s, step))
  {
    var after := Next(cfg, s, step);
    if step.ReplayTail? && s.host.Loaded? {
      OpenedKnown(s, s.store, ReplayMem(cfg, s.store, s.host.mem));
    } else if step.FlushTail? && s.host.Replayed? {
      OpenedKnown(s, FlushStore(s.store, s.host.mem), FlushMem(s.store, s.host.mem));
    } else if step.Offer? && s.host.Up? {
      EnqueueAllKnown(cfg.capacity, s.past.issued, s.store.log, s.host.live.(offer := []), s.host.live.offer);
      HostSwapKeeps(s, after.host.live);
    } else if step.Handle? && s.host.Up? && s.host.live.turn.Handling? {
      HandledKeeps(cfg, s, step.outcome);
    } else if step.FoldBatch? && s.host.Up? && s.host.live.turn.Appended? {
      FoldedKnown(cfg, s);
      HostSwapKeeps(s, Folded(cfg, s.host.live));
    }
  }

  /** The steps that settle a turn, take calls, stop the host or touch only the fence. */
  lemma QuietKeeps<S>(cfg: Config<S>, s: Sys<S>, step: Step)
    requires Accounted(s)
    requires step.Start? || step.CallEnqueue? || step.Settle? || step.FlushTurn? || step.Close? || step.Deactivate? ||
             step.BumpFence?
    ensures Accounted(Next(cfg, s, step))
  {
    if s.host.Up? {
      FinishKnown(s.past.issued, s.store.log, s.host.live);
      FinishKnown(s.past.issued, s.store.log, s.host.live.(mem := FlushMem(s.store, s.host.live.mem)));
    }
    LogGrowsKeeps(s, Next(cfg, s, step));
  }

  lemma DropAckKeeps<S>(cfg: Config<S>, s: Sys<S>, id: InboxId)
    requires Accounted(s)
    ensures Accounted(Next(cfg, s, DropAck(id)))
  {
    if id in s.drops {
      var acked := AckOne(s, id, Dropped);
      assert Accounted(acked) by {
        AckKeeps(s, id, Dropped);
      }
      assert AllKnown(s.past.issued, s.store.log, s.host, s.tells, s.drops - {id});
    }
  }

  lemma CrashKeeps<S>(cfg: Config<S>, s: Sys<S>)
    requires Accounted(s)
    ensures Accounted(Next(cfg, s, Crash))
  {
  }

  /** The steps that issue, drop or acknowledge an entry, and the crash. */
  lemma InboxKeeps<S>(cfg: Config<S>, s: Sys<S>, step: Step)
    requires Accounted(s)
    requires step.TellAppend? || step.TellEnqueue? || step.DropAck? || step.AckItem? || step.Crash?
    ensures Accounted(Next(cfg, s, step))
  {
    if step.TellAppend? && s.host.Up? {
      IssueKeeps(s, InboxRecord(InboxId(step.now, s.next + step.skip), step.kind, step.payload), s.next + step.skip + 1);
    } else if step.TellEnqueue? {
      TellEnqueueKeeps(cfg, s, step.item);
    } else if step.DropAck? {
      DropAckKeeps(cfg, s, step.id);
    } else if step.Crash? {
      CrashKeeps(cfg, s);
    } else if step.AckItem? && s.host.Up? && s.host.live.turn.Acking? && s.host.live.turn.item.Tell? {
      AckItemKeeps(cfg, s, step.ok);
    }
  }

  lemma NextAccounted<S>(cfg: Config<S>, s: Sys<S>, step: Step)
    requires Shape(s) && Accounted(s)
    ensures Accounted(Next(cfg, s, step))
  {
    if step.TellAppend? || step.TellEnqueue? || step.DropAck? || step.AckItem? || step.Crash? {
      InboxKeeps(cfg, s, step);
    } else if step.ReplayTail? || step.FlushTail? || step.Offer? || step.Handle? || step.FoldBatch? {
      TurnKeeps(cfg, s, step);
    } else {
      QuietKeeps(cfg, s, step);
    }
  }

  lemma {:induction false} RunAccounted<S>(cfg: Config<S>, steps: seq<Step>)
    ensures Accounted(Run(cfg, steps))
  {
    if steps == [] {
      var s: Sys<S> := Fresh();
      assert Refines(s.store.inbox, History(s.past.issued, s.past.fates.Keys), 0);
    } else {
      var before := steps[..|steps| - 1];
      RunAccounted(cfg, before);
      RunShape(cfg, before);
      NextAccounted(cfg, Run(cfg, before), steps[|steps| - 1]);
    }
  }

  // ---------------------------------------------------------------- Why an entry was acknowledged

  /** At step `i` the entry's handler returned events with these rows, and they went to the log at `at`. */
  ghost predicate CommittedAt<S>(
      cfg: Config<S>, steps: seq<Step>, i: nat, id: InboxId, at: nat, rows: seq<EventRow>)
    requires i < |steps|
  {
    var s, step := Run(cfg, steps[..i]), steps[i];
    && s.host.Up? && s.host.live.turn.Handling?
    && s.host.live.turn.item.Tell? && s.host.live.turn.item.id == id && cfg.handles(s.host.live.turn.item.kind)
    && step.Handle? && step.outcome.Returns? && step.outcome.value.Arr?
    && AllNormal(step.outcome.value.items) && Rows(step.outcome.value.items) == rows
    && |s.store.log| == at
    && (rows != [] ==> Appends(s.store, Some(s.host.live.mem.token)))
  }

  /** At step `i` the entry's tell found the mailbox open and full. */
  ghost predicate DroppedAt<S>(cfg: Config<S>, steps: seq<Step>, i: nat, id: InboxId)
    requires i < |steps|
  {
    var s, step := Run(cfg, steps[..i]), steps[i];
    && step.TellEnqueue? && step.item in s.tells && step.item.Tell? && step.item.id == id
    && s.host.Up? && Judge(cfg.capacity, s.host.live) == Full
  }

  /** The run holds the reason for the fate. */
  ghost predicate Explained<S>(cfg: Config<S>, steps: seq<Step>, id: InboxId, fate: Fate) {
    match fate
    case Committed(at, rows) => exists i: nat | i < |steps| :: CommittedAt(cfg, steps, i, id, at, rows)
    case Unhandled => exists r :: r in Run(cfg, steps).past.issued && r.id == id && !cfg.handles(r.kind)
    case Dropped => exists i: nat | i < |steps| :: DroppedAt(cfg, steps, i, id)
  }

  ghost predicate TurnExplained<S>(cfg: Config<S>, steps: seq<Step>, turn: Turn) {
    match turn
    case Appended(item, events, seqNo) =>
      item.Tell? && |events| <= seqNo && AllNormal(events) ==>
        Explained(cfg, steps, item.id, Committed(seqNo - |events|, Rows(events)))
    case Acking(item, fate, _) => item.Tell? ==> Explained(cfg, steps, item.id, fate)
    case _ => true
  }

  ghost predicate AllExplained<S>(cfg: Config<S>, steps: seq<Step>, s: Sys<S>) {
    && (forall id :: id in s.past.fates ==> Explained(cfg, steps, id, s.past.fates[id]))
    && (forall id :: id in s.drops ==> Explained(cfg, steps, id, Dropped))
    && (s.host.Up? ==> TurnExplained(cfg, steps, s.host.live.turn))
  }

  lemma IssuedGrows<S>(cfg: Config<S>, s: Sys<S>, step: Step)
    ensures s.past.issued <= Next(cfg, s, step).past.issued
  {
  }

  lemma ExplainedGrows<S>(cfg: Config<S>, steps: seq<Step>, step: Step, id: InboxId, fate: Fate)
    requires Explained(cfg, steps, id, fate)
    ensures Explained(cfg, steps + [step], id, fate)
  {
    var longer := steps + [step];
    assert forall i: nat | i < |steps| :: longer[..i] == steps[..i] && longer[i] == steps[i];
    match fate {
      case Committed(at, rows) =>
        var i: nat :| i < |steps| && CommittedAt(cfg, steps, i, id, at, rows);
        assert CommittedAt(cfg, longer, i, id, at, rows);
      case Unhandled =>
        var r :| r in Run(cfg, steps).past.issued && r.id == id && !cfg.handles(r.kind);
        RunSnoc(cfg, steps, step);
        IssuedGrows(cfg, Run(cfg, steps), step);
        assert r in Run(cfg, longer).past.issued;
      case Dropped =>
        var i: nat :| i < |steps| && DroppedAt(cfg, steps, i, id);
        assert DroppedAt(cfg, longer, i, id);
    }
  }

  lemma AllExplainedGrows<S>(cfg: Config<S>, steps: seq<Step>, step: Step, s: Sys<S>)
    requires AllExplained(cfg, steps, s)
    ensures AllExplained(cfg, steps + [step], s)
  {
    forall id, fate | Explained(cfg, steps, id, fate) ensures Explained(cfg, steps + [step], id, fate) {
      ExplainedGrows(cfg, steps, step, id, fate);
    }
  }

  /** A step that acknowledges nothing, drops nothing and starts no acknowledgement. */
  ghost predicate Silent<S>(s: Sys<S>, after: Sys<S>) {
    && after.past.fates == s.past.fates && after.drops <= s.drops
    && (after.host.Up? && (after.host.live.turn.Appended? || after.host.live.turn.Acking?) ==>
          s.host.Up? && after.host.live.turn == s.host.live.turn)
  }

  /** Steps that find nothing to acknowledge, fold or drop. */
  ghost predicate Quiet<S>(s: Sys<S>, step: Step) {
    && !step.TellEnqueue?
    && !(step.Handle? && s.host.Up? && s.host.live.turn.Handling?)
    && !(step.FoldBatch? && s.host.Up? && s.host.live.turn.Appended?)
    && !(step.AckItem? && s.host.Up? && s.host.live.turn.Acking? && s.host.live.turn.item.Tell?)
    && !(step.DropAck? && step.id in s.drops)
  }

  lemma OthersAreSilent<S>(cfg: Config<S>, s: Sys<S>, step: Step)
    requires Quiet(s, step)
    ensures Silent(s, Next(cfg, s, step))
  {
    if step.Offer? && s.host.Up? {
      EnqueueAllTurn(cfg.capacity, s.host.live.(offer := []), s.host.live.offer);
    }
  }

  lemma HandledExplained<S>(cfg: Config<S>, steps: seq<Step>, outcome: Outcome)
    requires Run(cfg, steps).host.Up? && Run(cfg, steps).host.live.turn.Handling?
    requires Accounted(Run(cfg, steps))
    ensures var turn := Handled(cfg, Run(cfg, steps), outcome).host.live.turn;
      TurnExplained(cfg, steps + [Handle(outcome)], turn)
  {
    var s, longer := Run(cfg, steps), steps + [Handle(outcome)];
    var item, turn := s.host.live.turn.item, Handled(cfg, s, outcome).host.live.turn;
    assert longer[..|steps|] == steps && longer[|steps|] == Handle(outcome);
    RunSnoc(cfg, steps, Handle(outcome));
    if item.Tell? && turn.Acking? && !cfg.handles(NameOf(item)) {
      assert InboxRecord(item.id, item.kind, item.payload) in Run(cfg, longer).past.issued;
    } else if item.Tell? && turn.Acking? {
      assert CommittedAt(cfg, longer, |steps|, item.id, turn.fate.at, turn.fate.rows);
    } else if item.Tell? && turn.Appended? {
      assert CommittedAt(cfg, longer, |steps|, item.id, turn.seqNo - |turn.events|, Rows(turn.events));
    }
  }

  lemma DropExplained<S>(cfg: Config<S>, steps: seq<Step>, item: Item)
    requires var s := Run(cfg, steps);
      item in s.tells && item.Tell? && s.host.Up? && Judge(cfg.capacity, s.host.live) == Full
    ensures Explained(cfg, steps + [TellEnqueue(item)], item.id, Dropped)
  {
    var longer := steps + [TellEnqueue(item)];
    assert longer[..|steps|] == steps;
    assert DroppedAt(cfg, longer, |steps|, item.id);
  }

  /** The reasons given so far, `why`, cover the state; each lemma below carries them over one kind of step. */
  lemma SilentExplained<S>(cfg: Config<S>, why: seq<Step>, s: Sys<S>, after: Sys<S>)
    requires AllExplained(cfg, why, s) && Silent(s, after)
    ensures AllExplained(cfg, why, after)
  {
  }

  lemma FoldExplained<S>(cfg: Config<S>, why: seq<Step>, s: Sys<S>)
    requires AllExplained(cfg, why, s) && s.host.Up? && s.host.live.turn.Appended?
    ensures AllExplained(cfg, why, WithLive(s, Folded(cfg, s.host.live)))
  {
  }

  lemma AckExplained<S>(cfg: Config<S>, why: seq<Step>, s: Sys<S>, id: InboxId, fate: Fate, live: Live<S>)
    requires AllExplained(cfg, why, s) && Explained(cfg, why, id, fate)
    requires !live.turn.Acking? && !live.turn.Appended?
    ensures AllExplained(cfg, why, WithLive(AckOne(s, id, fate), live))
  {
  }

  lemma DropAckExplained<S>(cfg: Config<S>, why: seq<Step>, s: Sys<S>, id: InboxId)
    requires AllExplained(cfg, why, s) && id in s.drops
    ensures AllExplained(cfg, why, AckOne(s, id, Dropped).(drops := s.drops - {id}))
  {
  }

  lemma EnqueueExplained<S>(cfg: Config<S>, why: seq<Step>, s: Sys<S>, item: Item)
    requires AllExplained(cfg, why, s)
    requires item.Tell? && item in s.tells && s.host.Up? && Judge(cfg.capacity, s.host.live) == Full ==>
               Explained(cfg, why, item.id, Dropped)
    ensures AllExplained(cfg, why, Next(cfg, s, TellEnqueue(item)))
  {
  }

  lemma AckItemExplained<S>(cfg: Config<S>, why: seq<Step>, s: Sys<S>, ok: bool)
    requires AllExplained(cfg, why, s)
    requires s.host.Up? && s.host.live.turn.Acking? && s.host.live.turn.item.Tell?
    ensures AllExplained(cfg, why, Next(cfg, s, AckItem(ok)))
  {
    var live := s.host.live;
    if ok {
      AckExplained(cfg, why, s, live.turn.item.id, live.turn.fate,
                   if live.turn.settles then live.(turn := Settling) else Finish(live));
    } else {
      SilentExplained(cfg, why, s, WithLive(s, Finish(live)));
    }
  }

  lemma HandleExplained<S>(cfg: Config<S>, steps: seq<Step>, outcome: Outcome)
    requires AllExplained(cfg, steps + [Handle(outcome)], Run(cfg, steps)) && Accounted(Run(cfg, steps))
    requires Run(cfg, steps).host.Up? && Run(cfg, steps).host.live.turn.Handling?
    ensures AllExplained(cfg, steps + [Handle(outcome)], Handled(cfg, Run(cfg, steps), outcome))
  {
    var s := Run(cfg, steps);
    var after := Handled(cfg, s, outcome);
    HandledExplained(cfg, steps, outcome);
    assert after.past.fates == s.past.fates && after.drops == s.drops && after.host.Up?;
  }

  lemma TellEnqueueExplained<S>(cfg: Config<S>, steps: seq<Step>, item: Item)
    requires AllExplained(cfg, steps + [TellEnqueue(item)], Run(cfg, steps)) && Accounted(Run(cfg, steps))
    ensures AllExplained(cfg, steps + [TellEnqueue(item)], Next(cfg, Run(cfg, steps), TellEnqueue(item)))
  {
    var s := Run(cfg, steps);
    if item in s.tells && item.Tell? && s.host.Up? && Judge(cfg.capacity, s.host.live) == Full {
      DropExplained(cfg, steps, item);
    }
    EnqueueExplained(cfg, steps + [TellEnqueue(item)], s, item);
  }

  lemma NextExplained<S>(cfg: Config<S>, steps: seq<Step>, step: Step)
    requires AllExplained(cfg, steps, Run(cfg, steps)) && Accounted(Run(cfg, steps))
    ensures AllExplained(cfg, steps + [step], Next(cfg, Run(cfg, steps), step))
  {
    var s, why := Run(cfg, steps), steps + [step];
    AllExplainedGrows(cfg, steps, step, s);
    if step.TellEnqueue? {
      TellEnqueueExplained(cfg, steps, step.item);
    } else if step.Handle? && s.host.Up? && s.host.live.turn.Handling? {
      HandleExplained(cfg, steps, step.outcome);
    } else if step.FoldBatch? && s.host.Up? && s.host.live.turn.Appended? {
      FoldExplained(cfg, why, s);
    } else if step.AckItem? && s.host.Up? && s.host.live.turn.Acking? && s.host.live.turn.item.Tell? {
      AckItemExplained(cfg, why, s, step.ok);
    } else if step.DropAck? && step.id in s.drops {
      DropAckExplained(cfg, why, s, step.id);
    } else {
      OthersAreSilent(cfg, s, step);
      SilentExplained(cfg, why, s, Next(cfg, s, step));
    }
  }

  lemma {:induction false} RunExplained<S>(cfg: Config<S>, steps: seq<Step>)
    ensures AllExplained(cfg, steps, Run(cfg, steps))
  {
    if steps != [] {
      var before := steps[..|steps| - 1];
      RunExplained(cfg, before);
      RunAccounted(cfg, before);
      NextExplained(cfg, before, steps[|steps| - 1]);
      RunSnoc(cfg, before, steps[|steps| - 1]);
      assert before + [steps[|steps| - 1]] == steps;
    }
  }

  // ---------------------------------------------------------------- The guarantee

  /**
   * At every await of every run: an issued entry is pending or has a fate, never both; what the inbox
   * reads back is exactly the entries without a fate, oldest first; and the run holds the reason for
   * every fate. A committed entry's rows are what its own handler returned, and they are in the log
   * where the fate says; an unhandled one has no handler; a dropped one found the mailbox full.
   */
  lemma TellsAreNeverLost<S>(cfg: Config<S>, steps: seq<Step>)
    ensures var s := Run(cfg, steps);
      var pending := Pending(s.store.inbox.bucket, s.store.inbox.acked);
      && pending == Pending(s.past.issued, s.past.fates.Keys)
      && (forall r :: r in s.past.issued ==> (r in pending <==> r.id !in s.past.fates))
      && (forall id :: id in s.past.fates ==>
            && id in Ids(s.past.issued)
            && FateTrue(s.store.log, s.past.fates[id])
            && Explained(cfg, steps, id, s.past.fates[id]))
  {
    var s := Run(cfg, steps);
    RunAccounted(cfg, steps);
    RunExplained(cfg, steps);
    BooksBucket(s.store.inbox, s.past.issued, s.past.fates.Keys);
    PendingIsSubset(s.past.issued, s.past.fates.Keys);
  }

  // ---------------------------------------------------------------- The host's mailbox

  /** The host's single worker over a mailbox: it waits in `dequeue`, or is busy and has called it no further. */
  ghost predicate Mirrors<S>(b: M.Box<Item>, live: Live<S>) {
    && b.buffer == live.buffer
    && b.closed == live.closed
    && |b.waiters| == (if live.turn.Waiting? then 1 else 0)
    && (live.turn.Waiting? ==> live.buffer == [] && !live.closed)
  }

  /** Enqueueing in the host is the mailbox's `enqueue`; a waiting worker's promise gets the item itself. */
  lemma EnqueueIsMailboxEnqueue<S>(b: M.Box<Item>, live: Live<S>, item: Item)
    requires Mirrors(b, live)
    ensures var after := M.Step(b, M.Enqueue(item));
      && Mirrors(after, Enqueue(b.capacity, live, item))
      && (Judge(b.capacity, live) == Accepted <==> M.Judge(b) == M.Accepted)
      && (Judge(b.capacity, live) == Full <==> M.Judge(b) == M.Full)
      && (live.turn.Waiting? ==>
            Enqueue(b.capacity, live, item).turn == Handling(item) &&
            b.waiters[0] in after.resolved && after.resolved[b.waiters[0]] == Some(item))
  {
  }

  /** Finishing a turn is the worker's next `dequeue`: the oldest item, or null once closed and drained. */
  lemma FinishIsMailboxDequeue<S>(b: M.Box<Item>, live: Live<S>)
    requires Mirrors(b, live) && !live.turn.Waiting?
    ensures var after := M.Step(b, M.Dequeue);
      && Mirrors(after, Finish(live))
      && (Finish(live).turn.Handling? ==> b.calls in after.resolved && after.resolved[b.calls] == Some(Finish(live).turn.item))
      && (Finish(live).turn.Exited? ==> b.calls in after.resolved && after.resolved[b.calls] == None)
  {
  }
}
