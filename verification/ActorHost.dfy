/** The host's own methods, over the storage driver: each is proved to take the machine's steps. */
module ActorHost {
  import opened Wrappers
  import opened Driver
  import opened Events
  import opened Inbox
  import opened Storage
  import opened Host
  import opened Memory

  /** How a turn ended, for the caller or the log. */
  datatype Ended = Done | Refused

  // ---------------------------------------------------------------- A turn as a function

  /** Append, fold, acknowledge and flush in one go: store, memory and whether the turn got to its end. */
  function Commit<S>(cfg: Config<S>, store: Store<S>, m: Mem<S>, item: Item, result: Value): (Store<S>, Mem<S>, Ended) {
    if !result.Arr? || !AllNormal(result.items) then (store, m, Refused)
    else
      var events := result.items;
      if events == [] then (Acked(store, item), m, Done)
      else if !Appends(store, Some(m.token)) then (store, m, Refused)
      else
        var appended := AppendRows(store, Rows(events), Some(m.token));
        var folded := FoldMem(cfg, m, events, |appended.log|);
        var acked := Acked(appended, item);
        if folded.since < cfg.everyN then (acked, folded, Done)
        else
          (FlushStore(acked, folded), FlushMem(acked, folded), if CanFlush(acked, folded) then Done else Refused)
  }

  function Acked<S>(store: Store<S>, item: Item): Store<S> {
    if item.Tell? then store.(inbox := Ack(store.inbox, {item.id})) else store
  }

  /** The steps of the machine that one commit stands for, with every ack succeeding. */
  function CommitSteps(result: Value): seq<Step> {
    [Handle(Returns(result)), FoldBatch, AckItem(true), Settle, FlushTurn]
  }

  /** The last two steps: a flush if the snapshot is due, and the end of the turn. */
  lemma FlushedBySteps<S>(cfg: Config<S>, s: Sys<S>)
    requires s.host.Up? && s.host.live.turn.Settling?
    ensures
      var m := s.host.live.mem;
      var t := Next(cfg, Next(cfg, s, Settle), FlushTurn);
      && t.store == (if m.since < cfg.everyN then s.store else FlushStore(s.store, m))
      && t.host == Up(Finish(s.host.live.(mem := if m.since < cfg.everyN then m else FlushMem(s.store, m))))
  {
  }

  /** The steps after the append, for a batch that is in the log. */
  lemma SettledBySteps<S>(cfg: Config<S>, s: Sys<S>)
    requires s.host.Up? && s.host.live.turn.Appended?
    requires AllNormal(s.host.live.turn.events) && |s.host.live.turn.events| <= s.host.live.turn.seqNo == |s.store.log|
    ensures
      var item := s.host.live.turn.item;
      var folded := FoldMem(cfg, s.host.live.mem, s.host.live.turn.events, |s.store.log|);
      var acked := Acked(s.store, item);
      var t := Next(cfg, Next(cfg, Next(cfg, Next(cfg, s, FoldBatch), AckItem(true)), Settle), FlushTurn);
      && t.store == (if folded.since < cfg.everyN then acked else FlushStore(acked, folded))
      && t.host == Up(Finish(s.host.live.(mem := if folded.since < cfg.everyN then folded else FlushMem(acked, folded))))
  {
    var folded := FoldMem(cfg, s.host.live.mem, s.host.live.turn.events, |s.store.log|);
    var s3 := Next(cfg, Next(cfg, s, FoldBatch), AckItem(true));
    assert s3.host == Up(s.host.live.(mem := folded, turn := Settling)) && s3.store == Acked(s.store, s.host.live.turn.item);
    FlushedBySteps(cfg, s3);
  }

  /** The same steps after a turn that appended nothing: at most the ack of an empty batch is left. */
  lemma EndedBySteps<S>(cfg: Config<S>, s: Sys<S>)
    requires s.host.Up?
    requires s.host.live.turn.Waiting? || s.host.live.turn.Exited? || s.host.live.turn.Handling? ||
             (s.host.live.turn.Acking? && s.host.live.turn.item.Tell? && !s.host.live.turn.settles)
    ensures
      var t := Next(cfg, Next(cfg, Next(cfg, Next(cfg, s, FoldBatch), AckItem(true)), Settle), FlushTurn);
      if s.host.live.turn.Acking?
      then t.store == Acked(s.store, s.host.live.turn.item) && t.host == Up(Finish(s.host.live))
      else t == s
  {
    var s3 := Next(cfg, Next(cfg, s, FoldBatch), AckItem(true));
    assert s3.host.live.turn.Waiting? || s3.host.live.turn.Exited? || s3.host.live.turn.Handling?;
  }

  /** `Commit` is those steps run without interruption, so a crash inside it is a crash between them. */
  lemma CommitIsSteps<S>(cfg: Config<S>, s: Sys<S>, result: Value)
    requires s.host.Up? && s.host.live.turn.Handling? && cfg.handles(NameOf(s.host.live.turn.item))
    ensures var (store, m, _) := Commit(cfg, s.store, s.host.live.mem, s.host.live.turn.item, result);
      var t := RunFrom(cfg, s, CommitSteps(result));
      t.store == store && t.host == Up(Finish(s.host.live.(mem := m)))
  {
    RunFive(cfg, s, Handle(Returns(result)), FoldBatch, AckItem(true), Settle, FlushTurn);
    var s1 := Next(cfg, s, Handle(Returns(result)));
    if s1.host.live.turn.Appended? {
      SettledBySteps(cfg, s1);
    } else {
      EndedBySteps(cfg, s1);
    }
  }

  /** The caller is told `Done` exactly when its events are in the log, and a refused turn leaves no trace. */
  lemma DoneIffLogged<S>(cfg: Config<S>, store: Store<S>, m: Mem<S>, item: Item, result: Value)
    ensures var (after, mem, ended) := Commit(cfg, store, m, item, result);
      && (ended == Done <==> result.Arr? && AllNormal(result.items) && after.log == store.log + Rows(result.items))
      && (ended == Refused ==> after == store && mem == m)
  {
    if result.Arr? && AllNormal(result.items) {
      assert |store.log + Rows(result.items)| == |store.log| + |result.items|;
      assert result.items == [] ==> store.log + Rows(result.items) == store.log;
    }
  }

  // ---------------------------------------------------------------- The class

  /** Replay's loop: only the stored payload reaches the reducer. */
  method ReplayAll<S>(reduce: (S, Value) -> S, state: S, records: seq<EventRecord>, ghost rows: seq<EventRow>)
      returns (s: S)
    requires |records| == |rows| && forall i :: 0 <= i < |rows| ==> records[i].row == rows[i]
    ensures s == Replay(reduce, state, rows)
  {
    s := state;
    for i := 0 to |records|
      invariant s == Replay(reduce, state, rows[..i])
    {
      assert rows[..i + 1][..i] == rows[..i];
      s := reduce(s, records[i].row.payload);
    }
    assert rows[..|rows|] == rows;
  }

  /** Commit's loop: the reducer gets the events as the handler returned them. */
  method FoldAll<S>(reduce: (S, Value) -> S, state: S, events: seq<Value>) returns (s: S)
    ensures s == Fold(reduce, state, events)
  {
    s := state;
    for i := 0 to |events|
      invariant s == Fold(reduce, state, events[..i])
    {
      assert events[..i + 1][..i] == events[..i];
      s := reduce(s, events[i]);
    }
    assert events[..|events|] == events;
  }

  class ActorHost<S> {
    const id: ActorId
    const cfg: Config<S>
    const driver: MemoryStorageDriver<S>
    var state: S
    var currentSeq: int
    var eventsSinceSnapshot: int
    var snapshotDirty: bool
    var fenceToken: int

    constructor (id: ActorId, cfg: Config<S>, driver: MemoryStorageDriver<S>)
      ensures this.id == id && this.cfg == cfg && this.driver == driver
      ensures eventsSinceSnapshot == 0 && !snapshotDirty
    {
      this.id, this.cfg, this.driver := id, cfg, driver;
      state, currentSeq, eventsSinceSnapshot, snapshotDirty, fenceToken := cfg.initial, 0, 0, false, 0;
    }

    ghost function View(): Mem<S>
      reads this
    {
      Mem(state, currentSeq, eventsSinceSnapshot, snapshotDirty, fenceToken)
    }

    /** `flushSnapshot`. */
    method FlushSnapshot() returns (ended: Ended)
      requires driver.Valid()
      modifies this`eventsSinceSnapshot, this`snapshotDirty, driver`snapshotsByActor, driver`stores
      ensures driver.Valid()
      ensures driver.stores[id] == FlushStore(old(driver.stores[id]), old(View()))
      ensures View() == FlushMem(old(driver.stores[id]), old(View()))
      ensures ended == if CanFlush(old(driver.stores[id]), old(View())) then Done else Refused
    {
      if !snapshotDirty {
        return Done;
      }
      snapshotDirty := false;
      var saved := driver.SaveSnapshot(id, currentSeq, state, Some(fenceToken));
      if !saved.Ok? {
        return Refused;
      }
      eventsSinceSnapshot := 0;
      return Done;
    }

    /** `replayEvents`, up to the decision to flush. */
    method ReplayEvents()
      requires driver.Valid() && driver.stores[id].fence.Some?
      requires 0 <= currentSeq
      modifies this`state, this`currentSeq, this`eventsSinceSnapshot, this`snapshotDirty
      ensures View() == ReplayMem(cfg, driver.stores[id], old(View()))
    {
      var head := driver.HeadEventSeq(id);
      if head <= currentSeq {
        return;
      }
      var records := driver.ReadEvents(id, currentSeq + 1);
      var replayed := |records|;
      if replayed > 0 {
        state := ReplayAll(cfg.reduce, state, records, Tail(driver.stores[id], currentSeq + 1));
        currentSeq := records[replayed - 1].seqNo;
      }
      eventsSinceSnapshot := replayed;
      if replayed >= cfg.everyN {
        snapshotDirty := true;
      }
    }

    /** `doActivate` of a fresh host, up to opening the mailbox. */
    method DoActivate() returns (ended: Ended)
      requires driver.Valid() && eventsSinceSnapshot == 0 && !snapshotDirty
      modifies this, driver`actors, driver`snapshotsByActor, driver`stores
      ensures driver.Valid()
      ensures
        var loaded := LoadStore(old(driver.stores[id]));
        var m := ReplayMem(cfg, loaded, LoadMem(cfg, old(driver.stores[id])));
        && driver.stores[id] == FlushStore(loaded, m)
        && View() == FlushMem(loaded, m)
        && ended == if CanFlush(loaded, m) then Done else Refused
    {
      var snap := driver.LoadSnapshot(id);
      fenceToken := driver.LoadActorFence(id);
      if snap.Some? {
        state, currentSeq := snap.value.1, snap.value.0;
      } else {
        driver.RegisterActor(id);
        state, currentSeq := cfg.initial, 0;
      }
      ReplayEvents();
      if snapshotDirty {
        ended := FlushSnapshot();
      } else {
        ended := Done;
      }
    }

    /** `commitEs`: a refusal is where the source throws. */
    method CommitEs(item: Item, result: Value) returns (ended: Ended)
      requires driver.Valid()
      modifies this`state, this`currentSeq, this`eventsSinceSnapshot, this`snapshotDirty
      modifies driver`eventsByActor, driver`headSeqByActor, driver`snapshotsByActor
      modifies driver`inboxByActor, driver`inboxAckedByActor, driver`stores
      ensures driver.Valid()
      ensures (driver.stores[id], View(), ended) == Commit(cfg, old(driver.stores[id]), old(View()), item, result)
    {
      if !result.Arr? || !AllNormal(result.items) {
        return Refused;
      }
      var events := result.items;
      if |events| == 0 {
        AckIfTell(item);
        return Done;
      }
      var append := driver.AppendEvents(id, Rows(events), Some(fenceToken));
      if !append.Ok? {
        return Refused;
      }
      ApplyBatch(events, append.value);
      AckIfTell(item);
      ended := FlushIfDue();
    }

    /** The live fold of a batch that is in the log, and the counters it moves. */
    method ApplyBatch(events: seq<Value>, seqNo: int)
      modifies this`state, this`currentSeq, this`eventsSinceSnapshot, this`snapshotDirty
      ensures View() == FoldMem(cfg, old(View()), events, seqNo)
    {
      state := FoldAll(cfg.reduce, state, events);
      currentSeq := seqNo;
      eventsSinceSnapshot := eventsSinceSnapshot + |events|;
      snapshotDirty := true;
    }

    method FlushIfDue() returns (ended: Ended)
      requires driver.Valid()
      modifies this`eventsSinceSnapshot, this`snapshotDirty, driver`snapshotsByActor, driver`stores
      ensures driver.Valid()
      ensures
        var st, m := old(driver.stores[id]), old(View());
        if m.since < cfg.everyN then driver.stores[id] == st && View() == m && ended == Done
        else
          && driver.stores[id] == FlushStore(st, m)
          && View() == FlushMem(st, m)
          && ended == if CanFlush(st, m) then Done else Refused
    {
      if eventsSinceSnapshot >= cfg.everyN {
        ended := FlushSnapshot();
      } else {
        ended := Done;
      }
    }

    method AckIfTell(item: Item)
      requires driver.Valid()
      modifies driver`inboxByActor, driver`inboxAckedByActor, driver`stores
      ensures driver.Valid()
      ensures driver.stores[id] == Acked(old(driver.stores[id]), item)
    {
      if item.Tell? {
        driver.AckInbox(id, [item.id]);
        assert (set e | e in [item.id]) == {item.id};
      }
    }
  }
}
