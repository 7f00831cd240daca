/** What every run of the host machine keeps, and what a cold start rebuilds after a crash. */
module Recovery {
  import opened Wrappers
  import opened Events
  import opened Inbox
  import opened Storage
  import opened Host
  import opened Memory

  // ---------------------------------------------------------------- Counters

  /** The seq a cold start begins to replay from. */
  ghost function Base<S>(store: Store<S>): int {
    if Latest(store).Some? then Latest(store).value else 0
  }

  /** The host stands at seq `n`, and counts the events since the latest snapshot. */
  ghost predicate Counted<S>(store: Store<S>, m: Mem<S>, n: int) {
    m.currentSeq == n && m.since == n - Base(store)
  }

  ghost predicate HostShape<S>(store: Store<S>, host: Host<S>) {
    match host
    case Down => true
    case Loaded(m) => Counted(store, m, Base(store)) && !m.dirty
    case Replayed(m) => Counted(store, m, |store.log|)
    case Up(live) =>
      if live.turn.Appended? then
        && AllNormal(live.turn.events) && live.turn.events != []
        && live.turn.seqNo == |store.log|
        && |live.turn.events| <= |store.log|
        && store.log[|store.log| - |live.turn.events|..] == Rows(live.turn.events)
        && Counted(store, live.mem, |store.log| - |live.turn.events|)
      else Counted(store, live.mem, |store.log|)
  }

  /** The log holds the committed events and nothing else; snapshots and the host's counters fit it. */
  ghost predicate Shape<S>(s: Sys<S>) {
    && AllNormal(s.past.events)
    && s.store.log == Rows(s.past.events)
    && (s.store.fence.None? ==> s.store.log == [] && s.store.snaps == map[] && s.host.Down?)
    && (forall k :: k in s.store.snaps ==> 0 <= k <= |s.store.log|)
    && HostShape(s.store, s.host)
  }

  lemma BaseOfSnaps<S>(a: Store<S>, b: Store<S>)
    requires a.snaps == b.snaps
    requires a.fence.Some? == b.fence.Some? || a.snaps == map[]
    ensures Base(a) == Base(b)
    ensures Latest(a) == Latest(b)
  {
  }

  lemma BaseAfterSave<S>(store: Store<S>, n: int, state: S)
    requires store.fence.Some? && 0 <= n
    requires forall k :: k in store.snaps ==> k <= n
    ensures Base(store.(snaps := store.snaps[n := state])) == n
  {
    var after := store.(snaps := store.snaps[n := state]);
    assert IsLatest(after.snaps, n);
  }

  lemma BaseInRange<S>(store: Store<S>)
    requires forall k :: k in store.snaps ==> 0 <= k <= |store.log|
    ensures 0 <= Base(store) <= |store.log|
    ensures Base(store) == 0 || (store.fence.Some? && Base(store) in store.snaps)
  {
  }

  lemma RowsConcat(a: seq<Value>, b: seq<Value>)
    requires AllNormal(a) && AllNormal(b)
    ensures AllNormal(a + b)
    ensures Rows(a + b) == Rows(a) + Rows(b)
  {
  }

  lemma FlushShape<S>(store: Store<S>, m: Mem<S>)
    requires store.fence.Some? && Counted(store, m, |store.log|)
    requires forall k :: k in store.snaps ==> 0 <= k <= |store.log|
    ensures var after := FlushStore(store, m);
      && after == store.(snaps := after.snaps)
      && (forall k :: k in after.snaps ==> 0 <= k <= |after.log|)
      && Counted(after, FlushMem(store, m), |after.log|)
  {
    if m.dirty && Passes(store, Some(m.token)) {
      BaseAfterSave(store, |store.log|, m.state);
    }
  }

  lemma ReplayShape<S>(cfg: Config<S>, store: Store<S>, m: Mem<S>)
    requires store.fence.Some? && Counted(store, m, Base(store))
    requires forall k :: k in store.snaps ==> 0 <= k <= |store.log|
    ensures Counted(store, ReplayMem(cfg, store, m), |store.log|)
    ensures !m.dirty ==> (ReplayMem(cfg, store, m).dirty <==>
                          |store.log| > Base(store) && |store.log| - Base(store) >= cfg.everyN)
    ensures ReplayMem(cfg, store, m).token == m.token
  {
    BaseInRange(store);
  }

  /** Enqueueing moves items; it never touches the memory of the host. */
  lemma {:induction false} EnqueueAllKeeps<S>(capacity: nat, live: Live<S>, records: seq<InboxRecord>)
    ensures var after := EnqueueAll(capacity, live, records);
      after.mem == live.mem && (after.turn.Appended? <==> live.turn.Appended?) &&
      (live.turn.Appended? ==> after.turn == live.turn) && after.offer == live.offer && after.closed == live.closed
    decreases |records|
  {
    if records != [] {
      EnqueueAllKeeps(capacity, Enqueue(capacity, live, ItemOf(records[0])), records[1..]);
    }
  }

  lemma HandledShape<S>(cfg: Config<S>, s: Sys<S>, outcome: Outcome)
    requires Shape(s) && s.host.Up? && s.host.live.turn.Handling?
    ensures Shape(Handled(cfg, s, outcome))
  {
    var after := Handled(cfg, s, outcome);
    if after.host.live.turn.Appended? {
      var events := after.host.live.turn.events;
      RowsConcat(s.past.events, events);
      BaseOfSnaps(s.store, after.store);
      assert after.store.log[|s.store.log|..] == Rows(events);
    }
  }

  /** Steps that only move messages: log, snapshots and the host's memory stay as they are. */
  predicate Moves(step: Step) {
    step.Offer? || step.TellAppend? || step.TellEnqueue? || step.DropAck? || step.CallEnqueue? || step.AckItem? ||
    step.Settle? || step.Close? || step.Crash? || step.BumpFence?
  }

  ghost predicate Moved<S>(s: Sys<S>, after: Sys<S>) {
    && after.store.log == s.store.log
    && after.store.snaps == s.store.snaps
    && after.store.fence.Some? == s.store.fence.Some?
    && after.past.events == s.past.events && after.past.batch == s.past.batch
    && (after.host.Down? || after.host == s.host ||
        (s.host.Up? && after.host.Up? && after.host.live.mem == s.host.live.mem &&
         (s.host.live.turn.Appended? ==> after.host.live.turn == s.host.live.turn) &&
         (after.host.live.turn.Appended? ==> after.host.live.turn == s.host.live.turn)))
  }

  lemma MovesOnly<S>(cfg: Config<S>, s: Sys<S>, step: Step)
    requires Moves(step)
    ensures Moved(s, Next(cfg, s, step))
  {
    if step.Offer? && s.host.Up? {
      EnqueueAllKeeps(cfg.capacity, s.host.live.(offer := []), s.host.live.offer);
    }
  }

  lemma MovedShape<S>(s: Sys<S>, after: Sys<S>)
    requires Shape(s) && Moved(s, after)
    ensures Shape(after)
  {
    BaseOfSnaps(s.store, after.store);
  }

  lemma NextShape<S>(cfg: Config<S>, s: Sys<S>, step: Step)
    requires Shape(s)
    ensures Shape(Next(cfg, s, step))
  {
    if Moves(step) {
      MovesOnly(cfg, s, step);
      MovedShape(s, Next(cfg, s, step));
    } else if step.Start? {
      BaseOfSnaps(s.store, LoadStore(s.store));
      BaseInRange(s.store);
    } else if step.ReplayTail? && s.host.Loaded? {
      ReplayShape(cfg, s.store, s.host.mem);
    } else if step.FlushTail? && s.host.Replayed? {
      FlushShape(s.store, s.host.mem);
    } else if step.Handle? && s.host.Up? && s.host.live.turn.Handling? {
      HandledShape(cfg, s, step.outcome);
    } else if (step.FlushTurn? || step.Deactivate?) && s.host.Up? && !s.host.live.turn.Appended? {
      FlushShape(s.store, s.host.live.mem);
    }
  }

  lemma {:induction false} RunShape<S>(cfg: Config<S>, steps: seq<Step>)
    ensures Shape(Run(cfg, steps))
  {
    if steps != [] {
      RunShape(cfg, steps[..|steps| - 1]);
      NextShape(cfg, Run(cfg, steps[..|steps| - 1]), steps[|steps| - 1]);
    }
  }

  // ---------------------------------------------------------------- States

  /** The state after the first `n` logged events, folded from the beginning. */
  ghost function StateAt<S>(cfg: Config<S>, store: Store<S>, n: int): S
    requires 0 <= n <= |store.log|
  {
    Replay(cfg.reduce, cfg.initial, store.log[..n])
  }

  ghost predicate SnapsTrue<S>(cfg: Config<S>, store: Store<S>) {
    forall k :: k in store.snaps && 0 <= k <= |store.log| ==> store.snaps[k] == StateAt(cfg, store, k)
  }

  ghost predicate MemTrue<S>(cfg: Config<S>, store: Store<S>, m: Mem<S>) {
    0 <= m.currentSeq <= |store.log| ==> m.state == StateAt(cfg, store, m.currentSeq)
  }

  /** Every stored snapshot and the live state are folds of the log. */
  ghost predicate States<S>(cfg: Config<S>, s: Sys<S>) {
    && SnapsTrue(cfg, s.store)
    && match s.host
       case Down => true
       case Loaded(m) => MemTrue(cfg, s.store, m)
       case Replayed(m) => MemTrue(cfg, s.store, m)
       case Up(live) => MemTrue(cfg, s.store, live.mem)
  }

  lemma StateAtGrows<S>(cfg: Config<S>, store: Store<S>, longer: Store<S>, n: int)
    requires 0 <= n <= |store.log| <= |longer.log| && longer.log[..|store.log|] == store.log
    ensures StateAt(cfg, longer, n) == StateAt(cfg, store, n)
  {
    assert longer.log[..n] == store.log[..n];
  }

  lemma LoadStates<S>(cfg: Config<S>, store: Store<S>)
    requires SnapsTrue(cfg, store)
    requires forall k :: k in store.snaps ==> 0 <= k <= |store.log|
    ensures MemTrue(cfg, LoadStore(store), LoadMem(cfg, store))
  {
    assert store.log[..0] == [];
  }

  /** Replaying the tail after seq `n` gives the fold of the whole log. */
  lemma ReplayStates<S>(cfg: Config<S>, store: Store<S>, m: Mem<S>)
    requires store.fence.Some? && 0 <= m.currentSeq <= |store.log| && MemTrue(cfg, store, m)
    ensures var after := ReplayMem(cfg, store, m);
      after.currentSeq == |store.log| && after.state == StateAt(cfg, store, |store.log|)
  {
    var n := m.currentSeq;
    assert store.log[..|store.log|] == store.log;
    if n < |store.log| {
      ReplayConcat(cfg.reduce, cfg.initial, store.log[..n], store.log[n..]);
      assert store.log == store.log[..n] + store.log[n..];
      assert Tail(store, n + 1) == store.log[n..];
    }
  }

  lemma FlushStates<S>(cfg: Config<S>, store: Store<S>, m: Mem<S>)
    requires SnapsTrue(cfg, store) && MemTrue(cfg, store, m) && m.currentSeq == |store.log|
    ensures SnapsTrue(cfg, FlushStore(store, m))
    ensures MemTrue(cfg, FlushStore(store, m), FlushMem(store, m))
  {
    var after := FlushStore(store, m);
    forall k | k in after.snaps && 0 <= k <= |after.log| ensures after.snaps[k] == StateAt(cfg, after, k) {
      assert StateAt(cfg, after, k) == StateAt(cfg, store, k);
    }
  }

  lemma AppendStates<S>(cfg: Config<S>, store: Store<S>, longer: Store<S>)
    requires SnapsTrue(cfg, store) && forall k :: k in store.snaps ==> 0 <= k <= |store.log|
    requires longer.snaps == store.snaps
    requires |store.log| <= |longer.log| && longer.log[..|store.log|] == store.log
    ensures SnapsTrue(cfg, longer)
  {
    forall k | k in longer.snaps && 0 <= k <= |longer.log| ensures longer.snaps[k] == StateAt(cfg, longer, k) {
      StateAtGrows(cfg, store, longer, k);
    }
  }

  lemma MemGrows<S>(cfg: Config<S>, store: Store<S>, longer: Store<S>, m: Mem<S>)
    requires 0 <= m.currentSeq <= |store.log| && MemTrue(cfg, store, m)
    requires |store.log| <= |longer.log| && longer.log[..|store.log|] == store.log
    ensures MemTrue(cfg, longer, m)
  {
    StateAtGrows(cfg, store, longer, m.currentSeq);
  }

  /** The one step that needs the reducer to agree: folding what the handler returned. */
  lemma FoldStates<S(!new)>(cfg: Config<S>, s: Sys<S>)
    requires Agrees(cfg.reduce, cfg.initial)
    requires Shape(s) && States(cfg, s) && s.host.Up? && s.host.live.turn.Appended?
    ensures States(cfg, WithLive(s, Folded(cfg, s.host.live)))
  {
    var live := s.host.live;
    var events, n := live.turn.events, live.mem.currentSeq;
    var before := s.past.events[..n];
    assert s.past.events == before + s.past.events[n..];
    assert Rows(s.past.events)[..n] == Rows(before);
    ReplayMatchesFold(cfg.reduce, cfg.initial, before);
    AgreesOnBatch(cfg, before, events);
    ReplayConcat(cfg.reduce, cfg.initial, s.store.log[..n], s.store.log[n..]);
    assert s.store.log == s.store.log[..n] + s.store.log[n..];
    assert s.store.log[..|s.store.log|] == s.store.log;
  }

  lemma AgreesOnBatch<S(!new)>(cfg: Config<S>, before: seq<Value>, events: seq<Value>)
    requires Agrees(cfg.reduce, cfg.initial) && AllNormal(before) && AllNormal(events)
    ensures var state := Fold(cfg.reduce, cfg.initial, before);
      Fold(cfg.reduce, state, events) == Replay(cfg.reduce, state, Rows(events))
  {
    RowsConcat(before, events);
    ReplayMatchesFold(cfg.reduce, cfg.initial, before);
    ReplayMatchesFold(cfg.reduce, cfg.initial, before + events);
    FoldConcat(cfg.reduce, cfg.initial, before, events);
    ReplayConcat(cfg.reduce, cfg.initial, Rows(before), Rows(events));
  }

  lemma HandledStates<S>(cfg: Config<S>, s: Sys<S>, outcome: Outcome)
    requires Shape(s) && States(cfg, s) && s.host.Up? && s.host.live.turn.Handling?
    ensures States(cfg, Handled(cfg, s, outcome))
  {
    var after := Handled(cfg, s, outcome).store;
    assert after.log[..|s.store.log|] == s.store.log;
    AppendStates(cfg, s.store, after);
    MemGrows(cfg, s.store, after, s.host.live.mem);
  }

  lemma MovedStates<S>(cfg: Config<S>, s: Sys<S>, after: Sys<S>)
    requires States(cfg, s) && Moved(s, after)
    ensures States(cfg, after)
  {
    forall k | k in after.store.snaps && 0 <= k <= |after.store.log|
      ensures after.store.snaps[k] == StateAt(cfg, after.store, k)
    {
      assert StateAt(cfg, after.store, k) == StateAt(cfg, s.store, k);
    }
  }

  lemma NextStates<S(!new)>(cfg: Config<S>, s: Sys<S>, step: Step)
    requires Agrees(cfg.reduce, cfg.initial)
    requires Shape(s) && States(cfg, s)
    ensures States(cfg, Next(cfg, s, step))
  {
    BaseInRange(s.store);
    if Moves(step) {
      MovesOnly(cfg, s, step);
      MovedStates(cfg, s, Next(cfg, s, step));
    } else if step.Start? {
      LoadStates(cfg, s.store);
      assert LoadStore(s.store).log[..|s.store.log|] == s.store.log;
      AppendStates(cfg, s.store, LoadStore(s.store));
    } else if step.ReplayTail? && s.host.Loaded? {
      ReplayStates(cfg, s.store, s.host.mem);
    } else if step.FlushTail? && s.host.Replayed? {
      FlushStates(cfg, s.store, s.host.mem);
    } else if step.Handle? && s.host.Up? && s.host.live.turn.Handling? {
      HandledStates(cfg, s, step.outcome);
    } else if step.FoldBatch? && s.host.Up? && s.host.live.turn.Appended? {
      FoldStates(cfg, s);
    } else if (step.FlushTurn? || step.Deactivate?) && s.host.Up? && !s.host.live.turn.Appended? {
      FlushStates(cfg, s.store, s.host.live.mem);
    }
  }

  /** In every run, at every await, snapshots and live state are exactly folds of the log. */
  lemma {:induction false} RunStates<S(!new)>(cfg: Config<S>, steps: seq<Step>)
    requires Agrees(cfg.reduce, cfg.initial)
    ensures Shape(Run(cfg, steps)) && States(cfg, Run(cfg, steps))
  {
    RunShape(cfg, steps);
    if steps != [] {
      var before := steps[..|steps| - 1];
      RunShape(cfg, before);
      RunStates(cfg, before);
      NextStates(cfg, Run(cfg, before), steps[|steps| - 1]);
    }
  }

  // ---------------------------------------------------------------- Recovery

  /** What the next activation has in memory once it has replayed. */
  ghost function ColdStart<S>(cfg: Config<S>, store: Store<S>): Mem<S> {
    ReplayMem(cfg, LoadStore(store), LoadMem(cfg, store))
  }

  lemma ColdStartIsReplay<S>(cfg: Config<S>, s: Sys<S>)
    requires Shape(s) && States(cfg, s)
    ensures ColdStart(cfg, s.store).currentSeq == |s.store.log|
    ensures ColdStart(cfg, s.store).state == Replay(cfg.reduce, cfg.initial, s.store.log)
  {
    BaseInRange(s.store);
    LoadStates(cfg, s.store);
    ReplayStates(cfg, LoadStore(s.store), LoadMem(cfg, s.store));
    assert s.store.log[..|s.store.log|] == s.store.log;
  }

  /** The crash and restart of any system is that cold start. */
  lemma RestartIsColdStart<S>(cfg: Config<S>, s: Sys<S>)
    ensures var t := RunFrom(cfg, s, [Crash, Start, ReplayTail]);
      && t.store == LoadStore(s.store)
      && (t.host == Replayed(ColdStart(cfg, s.store)) || t.host == Opened(t.store, ColdStart(cfg, s.store)))
  {
    var crashed := Next(cfg, s, Crash);
    var started := Next(cfg, crashed, Start);
    assert [Crash, Start, ReplayTail][1..] == [Start, ReplayTail];
    assert [Start, ReplayTail][1..] == [ReplayTail] && [ReplayTail][1..] == [];
    assert RunFrom(cfg, s, [Crash, Start, ReplayTail]) == RunFrom(cfg, started, [ReplayTail]);
    assert RunFrom(cfg, started, [ReplayTail]) == RunFrom(cfg, Next(cfg, started, ReplayTail), []);
  }

  /**
   * Recovery: whatever await a crash hits, a cold start rebuilds the fold of every event ever
   * committed; that is the state the host had, plus the batch that was durable but not yet folded.
   */
  lemma CrashRecovers<S(!new)>(cfg: Config<S>, steps: seq<Step>)
    requires Agrees(cfg.reduce, cfg.initial)
    ensures var s := Run(cfg, steps);
      var cold := ColdStart(cfg, s.store);
      && cold.currentSeq == |s.store.log| == |s.past.events|
      && cold.state == Fold(cfg.reduce, cfg.initial, s.past.events)
      && (s.host.Up? && !s.host.live.turn.Appended? ==>
            cold.state == s.host.live.mem.state && cold.currentSeq == s.host.live.mem.currentSeq)
      && (s.host.Up? && s.host.live.turn.Appended? ==>
            cold.state == Fold(cfg.reduce, s.host.live.mem.state, s.host.live.turn.events))
  {
    var s := Run(cfg, steps);
    RunStates(cfg, steps);
    ColdStartIsReplay(cfg, s);
    ReplayMatchesFold(cfg.reduce, cfg.initial, s.past.events);
    assert s.store.log[..|s.store.log|] == s.store.log;
    if s.host.Up? && s.host.live.turn.Appended? {
      var folded := WithLive(s, Folded(cfg, s.host.live));
      FoldStates(cfg, s);
      assert folded.host.live.mem.state == StateAt(cfg, s.store, |s.store.log|);
    }
  }

  ghost predicate Recovers<S>(cfg: Config<S>, s: Sys<S>) {
    s.host.Up? && !s.host.live.turn.Appended? ==> ColdStart(cfg, s.store).state == s.host.live.mem.state
  }

  /** One call that returns `events`, up to and including the live fold. */
  function OneCall(name: string, events: seq<Value>): seq<Step> {
    [Start, ReplayTail, CallEnqueue(name, Undefined), Handle(Returns(Arr(events))), FoldBatch]
  }

  lemma OneCallRuns<S>(cfg: Config<S>, name: string, events: seq<Value>)
    requires cfg.capacity >= 1 && cfg.handles(name) && AllNormal(events) && events != []
    ensures var s := Run(cfg, OneCall(name, events));
      && s.store == Store(Some(0), map[], Rows(events), NoInbox)
      && s.host == Up(Live(Mem(Fold(cfg.reduce, cfg.initial, events), |events|, |events|, true, 0), [], false, Settling, []))
  {
    var steps := OneCall(name, events);
    RunThen(cfg, [], steps);
    assert [] + steps == steps;
    var s0: Sys<S> := Fresh();
    RunFive(cfg, s0, Start, ReplayTail, CallEnqueue(name, Undefined), Handle(Returns(Arr(events))), FoldBatch);
    FirstActivation(cfg);
    FirstCall(cfg, name, events);
  }

  /** A first activation: the row is registered and an open, idle host has the initial state. */
  function Idle<S>(cfg: Config<S>): Sys<S> {
    Fresh<S>().(store := Register(NoStore()), host := Up(Live(Mem(cfg.initial, 0, 0, false, 0), [], false, Waiting, [])))
  }

  lemma FirstActivation<S>(cfg: Config<S>)
    ensures Next(cfg, Next(cfg, Fresh(), Start), ReplayTail) == Idle(cfg)
  {
    var s0: Sys<S> := Fresh();
    assert Latest(s0.store).None?;
    var s1 := Next(cfg, s0, Start);
    assert s1.host == Loaded(Mem(cfg.initial, 0, 0, false, 0));
  }

  lemma FirstCall<S>(cfg: Config<S>, name: string, events: seq<Value>)
    requires cfg.capacity >= 1 && cfg.handles(name) && AllNormal(events) && events != []
    ensures
      var called := Next(cfg, Idle(cfg), CallEnqueue(name, Undefined));
      var s := Next(cfg, Next(cfg, called, Handle(Returns(Arr(events)))), FoldBatch);
      && s.store == Store(Some(0), map[], Rows(events), NoInbox)
      && s.host == Up(Live(Mem(Fold(cfg.reduce, cfg.initial, events), |events|, |events|, true, 0), [], false, Settling, []))
  {
    CallArrives(cfg, name);
    FirstCommit(cfg, Next(cfg, Idle(cfg), CallEnqueue(name, Undefined)), Mem(cfg.initial, 0, 0, false, 0),
                Call(name, Undefined), events);
  }

  lemma CallArrives<S>(cfg: Config<S>, name: string)
    requires cfg.capacity >= 1
    ensures var called := Next(cfg, Idle(cfg), CallEnqueue(name, Undefined));
      && called.store == Register(NoStore())
      && called.host == Up(Live(Mem(cfg.initial, 0, 0, false, 0), [], false, Handling(Call(name, Undefined)), []))
  {
  }

  lemma FirstCommit<S>(cfg: Config<S>, s: Sys<S>, mem: Mem<S>, item: Item, events: seq<Value>)
    requires item.Call? && cfg.handles(item.name) && AllNormal(events) && events != []
    requires s.store == Register(NoStore()) && mem.token == 0 && mem.since == 0
    requires s.host == Up(Live(mem, [], false, Handling(item), []))
    ensures var after := Next(cfg, Next(cfg, s, Handle(Returns(Arr(events)))), FoldBatch);
      && after.store == Store(Some(0), map[], Rows(events), NoInbox)
      && after.host == Up(Live(Mem(Fold(cfg.reduce, mem.state, events), |events|, |events|, true, 0), [], false, Settling, []))
  {
    HandleFirst(cfg, s, mem, item, events);
    FoldFirst(cfg, Next(cfg, s, Handle(Returns(Arr(events)))), mem, item, events);
  }

  lemma HandleFirst<S>(cfg: Config<S>, s: Sys<S>, mem: Mem<S>, item: Item, events: seq<Value>)
    requires item.Call? && cfg.handles(item.name) && AllNormal(events) && events != []
    requires s.store == Register(NoStore()) && mem.token == 0
    requires s.host == Up(Live(mem, [], false, Handling(item), []))
    ensures var after := Next(cfg, s, Handle(Returns(Arr(events))));
      && after.store == Store(Some(0), map[], Rows(events), NoInbox)
      && after.host == Up(Live(mem, [], false, Appended(item, events, |events|), []))
  {
    assert [] + Rows(events) == Rows(events);
    assert Appends(s.store, Some(mem.token));
  }

  lemma FoldFirst<S>(cfg: Config<S>, s: Sys<S>, mem: Mem<S>, item: Item, events: seq<Value>)
    requires item.Call? && s.host == Up(Live(mem, [], false, Appended(item, events, |events|), [])) && mem.since == 0
    ensures var after := Next(cfg, s, FoldBatch);
      && after.store == s.store
      && after.host == Up(Live(FoldMem(cfg, mem, events, |events|), [], false, Settling, []))
  {
  }

  /** If every run recovers, replaying any batch gives what folding it live gives. */
  lemma RecoveryNeedsAgreement<S(!new)>(cfg: Config<S>, name: string, events: seq<Value>)
    requires cfg.capacity >= 1 && cfg.handles(name) && AllNormal(events)
    requires events != [] ==> Recovers(cfg, Run(cfg, OneCall(name, events)))
    ensures Replay(cfg.reduce, cfg.initial, Rows(events)) == Fold(cfg.reduce, cfg.initial, events)
  {
    if events != [] {
      OneCallRuns(cfg, name, events);
      var s := Run(cfg, OneCall(name, events));
      assert Latest(s.store).None?;
      assert Tail(s.store, 1) == Rows(events);
    }
  }

  /**
   * Exactly when recovery is right: every run survives a crash with its state if and only if the
   * reducer cannot tell an event from its stored payload in any state commits reach.
   */
  lemma RecoveryIff<S(!new)>(cfg: Config<S>, name: string)
    requires cfg.capacity >= 1 && cfg.handles(name)
    ensures (forall steps :: Recovers(cfg, Run(cfg, steps))) <==> Agrees(cfg.reduce, cfg.initial)
  {
    if Agrees(cfg.reduce, cfg.initial) {
      forall steps ensures Recovers(cfg, Run(cfg, steps)) {
        CrashRecovers(cfg, steps);
      }
    } else {
      ReplayMatchesFoldIff(cfg.reduce, cfg.initial);
      var events :| AllNormal(events) &&
        Replay(cfg.reduce, cfg.initial, Rows(events)) != Fold(cfg.reduce, cfg.initial, events);
      if Recovers(cfg, Run(cfg, OneCall(name, events))) {
        RecoveryNeedsAgreement(cfg, name, events);
      }
      assert !Recovers(cfg, Run(cfg, OneCall(name, events)));
    }
  }

  /** The tagged-union ledger, run on this host, comes back from a crash without its state. */
  lemma LedgerForgets(cfg: Config<Option<int>>, name: string)
    requires cfg.initial == Some(0) && cfg.reduce == Ledger && cfg.capacity >= 1 && cfg.handles(name)
    ensures exists steps :: !Recovers(cfg, Run(cfg, steps))
  {
    TaggedUnionLedgerIsNotReplayed();
    RecoveryIff(cfg, name);
  }

  /** A reducer that looks through explicit records comes back from every crash. */
  lemma TallyRecovers(cfg: Config<int>, steps: seq<Step>)
    requires cfg.reduce == Tally
    ensures Recovers(cfg, Run(cfg, steps))
  {
    TallyAgrees(cfg.initial);
    CrashRecovers(cfg, steps);
  }

  // ---------------------------------------------------------------- The replay tail

  function Limit(n: nat): nat { if n == 0 then 1 else n }

  /** The flush of a turn passes, and no ack is rejected over a snapshot that has come due. */
  ghost predicate Smooth<S>(cfg: Config<S>, s: Sys<S>, step: Step) {
    s.host.Up? ==>
      && (step.FlushTurn? && s.host.live.turn.Flushing? ==> CanFlush(s.store, s.host.live.mem))
      && (step == AckItem(false) && s.host.live.turn.Acking? && s.host.live.turn.item.Tell? && s.host.live.turn.settles ==>
            s.host.live.mem.since < cfg.everyN)
  }

  ghost predicate AllSmooth<S>(cfg: Config<S>, steps: seq<Step>) {
    forall i :: 0 <= i < |steps| ==> Smooth(cfg, Run(cfg, steps[..i]), steps[i])
  }

  /** Between turns, and while a handler runs, fewer than N events are newer than the latest snapshot. */
  ghost predicate ShortTail<S>(cfg: Config<S>, s: Sys<S>) {
    && |s.store.log| - Base(s.store) < Limit(cfg.everyN) + s.past.batch
    && (s.host.Replayed? ==> s.host.mem.dirty)
    && (s.host.Up? ==>
          var m := s.host.live.mem;
          match s.host.live.turn
          case Acking(_, _, settles) => if settles then m.dirty && m.since >= 1 else 0 <= m.since < Limit(cfg.everyN)
          case Settling => m.dirty && m.since >= 1
          case Flushing => m.dirty && m.since >= Limit(cfg.everyN)
          case _ => 0 <= m.since < Limit(cfg.everyN))
  }

  lemma {:induction false} EnqueueAllTurn<S>(capacity: nat, live: Live<S>, records: seq<InboxRecord>)
    ensures var after := EnqueueAll(capacity, live, records);
      after.turn == live.turn || (live.turn.Waiting? && after.turn.Handling?)
    decreases |records|
  {
    if records != [] {
      EnqueueAllTurn(capacity, Enqueue(capacity, live, ItemOf(records[0])), records[1..]);
    }
  }

  lemma MovesShortTail<S>(cfg: Config<S>, s: Sys<S>, step: Step)
    requires Moves(step) && ShortTail(cfg, s)
    ensures ShortTail(cfg, Next(cfg, s, step)) <==> Smooth(cfg, s, step)
  {
    MovesOnly(cfg, s, step);
    BaseOfSnaps(s.store, Next(cfg, s, step).store);
    if step.Offer? && s.host.Up? {
      EnqueueAllTurn(cfg.capacity, s.host.live.(offer := []), s.host.live.offer);
    }
  }

  lemma ActivateShortTail<S>(cfg: Config<S>, s: Sys<S>, step: Step)
    requires (step.Start? || step.ReplayTail? || step.FlushTail?) && Shape(s) && ShortTail(cfg, s)
    ensures ShortTail(cfg, Next(cfg, s, step))
  {
    BaseInRange(s.store);
    if step.Start? {
      BaseOfSnaps(s.store, LoadStore(s.store));
    } else if step.ReplayTail? && s.host.Loaded? {
      ReplayShape(cfg, s.store, s.host.mem);
    } else if step.FlushTail? && s.host.Replayed? {
      FlushShape(s.store, s.host.mem);
    }
  }

  lemma TurnShortTail<S>(cfg: Config<S>, s: Sys<S>, step: Step)
    requires step.Handle? || step.FoldBatch? || step.Deactivate?
    requires Shape(s) && ShortTail(cfg, s)
    ensures ShortTail(cfg, Next(cfg, s, step))
  {
    BaseInRange(s.store);
    if step.Handle? {
      BaseOfSnaps(s.store, Next(cfg, s, step).store);
    } else if step.Deactivate? && s.host.Up? && !s.host.live.turn.Appended? {
      FlushShape(s.store, s.host.live.mem);
    }
  }

  lemma FlushShortTail<S>(cfg: Config<S>, s: Sys<S>)
    requires Shape(s) && ShortTail(cfg, s)
    ensures ShortTail(cfg, Next(cfg, s, FlushTurn)) <==> Smooth(cfg, s, FlushTurn)
  {
    BaseInRange(s.store);
    if s.host.Up? && !s.host.live.turn.Appended? {
      FlushShape(s.store, s.host.live.mem);
    }
  }

  /** A step keeps the tail short exactly when it is smooth. */
  lemma NextShortTail<S>(cfg: Config<S>, s: Sys<S>, step: Step)
    requires Shape(s) && ShortTail(cfg, s)
    ensures ShortTail(cfg, Next(cfg, s, step)) <==> Smooth(cfg, s, step)
  {
    if Moves(step) {
      MovesShortTail(cfg, s, step);
    } else if step.Start? || step.ReplayTail? || step.FlushTail? {
      ActivateShortTail(cfg, s, step);
    } else if step.FlushTurn? {
      FlushShortTail(cfg, s);
    } else {
      TurnShortTail(cfg, s, step);
    }
  }

  lemma {:induction false} RunShortTail<S>(cfg: Config<S>, steps: seq<Step>)
    requires AllSmooth(cfg, steps)
    ensures Shape(Run(cfg, steps)) && ShortTail(cfg, Run(cfg, steps))
  {
    RunShape(cfg, steps);
    if steps != [] {
      var before := steps[..|steps| - 1];
      RunShape(cfg, before);
      assert AllSmooth(cfg, before) by {
        assert forall i :: 0 <= i < |before| ==> before[..i] == steps[..i] && before[i] == steps[i];
      }
      RunShortTail(cfg, before);
      NextShortTail(cfg, Run(cfg, before), steps[|steps| - 1]);
    }
  }

  /**
   * The replay tail: if every flush of a turn passes and no ack is rejected over a due snapshot, a
   * crash between turns leaves fewer than N events to replay and a crash anywhere leaves fewer than N
   * plus the size of the last batch. Fences may be bumped, and activation flushes refused, meanwhile.
   */
  lemma ReplayTailBound<S>(cfg: Config<S>, steps: seq<Step>)
    requires AllSmooth(cfg, steps)
    ensures var s := Run(cfg, steps);
      && |s.store.log| - Base(s.store) < Limit(cfg.everyN) + s.past.batch
      && (s.host.Up? && (s.host.live.turn.Waiting? || s.host.live.turn.Handling? || s.host.live.turn.Exited?) ==>
            s.host.live.mem.since == |s.store.log| - Base(s.store) < Limit(cfg.everyN))
  {
    RunShortTail(cfg, steps);
  }

  /** The tail is short at every await of a run if and only if every step of the run is smooth. */
  lemma ShortTailIff<S>(cfg: Config<S>, steps: seq<Step>)
    ensures (forall k :: 0 <= k <= |steps| ==> ShortTail(cfg, Run(cfg, steps[..k]))) <==> AllSmooth(cfg, steps)
  {
    if AllSmooth(cfg, steps) {
      forall k | 0 <= k <= |steps| ensures ShortTail(cfg, Run(cfg, steps[..k])) {
        var part := steps[..k];
        assert forall i :: 0 <= i < |part| ==> part[..i] == steps[..i] && part[i] == steps[i];
        RunShortTail(cfg, part);
      }
    } else {
      var i :| 0 <= i < |steps| && !Smooth(cfg, Run(cfg, steps[..i]), steps[i]);
      if ShortTail(cfg, Run(cfg, steps[..i])) {
        RunShape(cfg, steps[..i]);
        NextShortTail(cfg, Run(cfg, steps[..i]), steps[i]);
        assert steps[..i + 1][..i] == steps[..i];
        assert !ShortTail(cfg, Run(cfg, steps[..i + 1]));
      }
    }
  }

  // ---------------------------------------------------------------- Runs with a long tail

  /** A call commits events enough for a snapshot, and another owner bumps the fence before the flush. */
  function FlushRefused(name: string, events: seq<Value>): seq<Step> {
    OneCall(name, events) + [Settle] + [BumpFence(0)] + [FlushTurn]
  }

  /** The host is between turns, and N events or more are newer than the latest snapshot. */
  lemma TailOutgrowsLimit<S>(cfg: Config<S>, name: string, events: seq<Value>)
    requires cfg.capacity >= 1 && cfg.handles(name) && AllNormal(events) && |events| >= Limit(cfg.everyN)
    ensures var s := Run(cfg, FlushRefused(name, events));
      && s.host.Up? && s.host.live.turn.Waiting?
      && |s.store.log| - Base(s.store) == |events| && !ShortTail(cfg, s)
  {
    var s1 := OneCall(name, events);
    var s2 := s1 + [Settle];
    OneCallRuns(cfg, name, events);
    RunSnoc(cfg, s1, Settle);
    RunSnoc(cfg, s2, BumpFence(0));
    RunSnoc(cfg, s2 + [BumpFence(0)], FlushTurn);
    FlushFails(cfg, Run(cfg, s1), events);
  }

  lemma FlushFails<S>(cfg: Config<S>, s: Sys<S>, events: seq<Value>)
    requires |events| >= Limit(cfg.everyN) && AllNormal(events) && s.store == Store(Some(0), map[], Rows(events), NoInbox)
    requires s.host.Up? && s.host.live.turn.Settling? && s.host.live.buffer == [] && !s.host.live.closed
    requires s.host.live.mem.since == |events| && s.host.live.mem.dirty && s.host.live.mem.token == 0
    ensures var after := Next(cfg, Next(cfg, Next(cfg, s, Settle), BumpFence(0)), FlushTurn);
      && after.host == Up(s.host.live.(mem := s.host.live.mem.(dirty := false), turn := Waiting))
      && |after.store.log| - Base(after.store) == |events|
  {
    var bumped := Next(cfg, Next(cfg, s, Settle), BumpFence(0));
    assert bumped.host == Up(s.host.live.(turn := Flushing)) && bumped.store == s.store.(fence := Some(1));
    assert Latest(Next(cfg, bumped, FlushTurn).store).None?;
  }

  /** A tell commits one event and its ack is rejected, time and again. */
  function AckRejected(name: string, e: Value, n: nat): seq<Step> {
    var item := Tell(InboxId(0, n), name, Undefined);
    [TellAppend(0, 0, name, Undefined), TellEnqueue(item), Handle(Returns(Arr([e]))), FoldBatch, AckItem(false)]
  }

  function AcksRejected(name: string, e: Value, n: nat): seq<Step> {
    if n == 0 then [Start, ReplayTail] else AcksRejected(name, e, n - 1) + AckRejected(name, e, n - 1)
  }

  /** Open, idle, with `n` events committed and none of them in a snapshot. */
  ghost predicate Lags<S>(s: Sys<S>, n: nat) {
    && s.host.Up? && s.host.live.turn.Waiting? && s.host.live.buffer == [] && !s.host.live.closed
    && s.host.live.mem.token == 0 && s.host.live.mem.since == n
    && s.store.fence == Some(0) && s.store.snaps == map[] && |s.store.log| == n && s.past.batch <= 1
    && s.next == n
  }

  lemma TellArrives<S>(cfg: Config<S>, s: Sys<S>, name: string, n: nat)
    requires Lags(s, n)
    ensures var item := Tell(InboxId(0, n), name, Undefined);
      var t := Next(cfg, Next(cfg, s, TellAppend(0, 0, name, Undefined)), TellEnqueue(item));
      && t.host == Up(s.host.live.(turn := Handling(item))) && t.next == n + 1
      && t.store.fence == s.store.fence && t.store.snaps == s.store.snaps && t.store.log == s.store.log
      && t.past.batch == s.past.batch
  {
    var item := Tell(InboxId(0, n), name, Undefined);
    var told := Next(cfg, s, TellAppend(0, 0, name, Undefined));
    assert item == ItemOf(InboxRecord(InboxId(0, n), name, Undefined)) && item in told.tells;
    assert told.host == s.host && told.next == n + 1;
  }

  lemma TellCommits<S>(cfg: Config<S>, s: Sys<S>, item: Item, e: Value)
    requires item.Tell? && cfg.handles(item.kind) && AllNormal([e]) && s.store.fence == Some(0)
    requires s.host.Up? && s.host.live.turn == Handling(item) && s.host.live.mem.token == 0
    ensures var t := Next(cfg, s, Handle(Returns(Arr([e]))));
      && t.host == Up(s.host.live.(turn := Appended(item, [e], |t.store.log|))) && t.next == s.next
      && t.store == s.store.(log := s.store.log + Rows([e])) && t.past.batch == 1
  {
    assert Appends(s.store, Some(s.host.live.mem.token));
  }

  lemma AckFails<S>(cfg: Config<S>, s: Sys<S>, item: Item, e: Value, n: nat)
    requires item.Tell? && AllNormal([e]) && s.host.Up? && s.host.live.turn == Appended(item, [e], n + 1)
    requires s.host.live.buffer == [] && !s.host.live.closed
    ensures var t := Next(cfg, Next(cfg, s, FoldBatch), AckItem(false));
      && t.host == Up(s.host.live.(mem := FoldMem(cfg, s.host.live.mem, [e], n + 1), turn := Waiting))
      && t.store == s.store && t.next == s.next && t.past == s.past
  {
    var acking := Next(cfg, s, FoldBatch);
    assert acking.store == s.store && acking.host.Up? && acking.host.live.turn.Acking?;
  }

  lemma LagsMore<S>(cfg: Config<S>, s: Sys<S>, name: string, e: Value, n: nat)
    requires cfg.handles(name) && AllNormal([e]) && Lags(s, n)
    ensures Lags(RunFrom(cfg, s, AckRejected(name, e, n)), n + 1)
  {
    var item := Tell(InboxId(0, n), name, Undefined);
    RunFive(cfg, s, TellAppend(0, 0, name, Undefined), TellEnqueue(item), Handle(Returns(Arr([e]))), FoldBatch, AckItem(false));
    var handling := Next(cfg, Next(cfg, s, TellAppend(0, 0, name, Undefined)), TellEnqueue(item));
    TellArrives(cfg, s, name, n);
    TellCommits(cfg, handling, item, e);
    AckFails(cfg, Next(cfg, handling, Handle(Returns(Arr([e])))), item, e, n);
  }

  /** The tail has no bound: for every length there is a run of batches of one event that leaves it between turns. */
  lemma {:induction false} TailIsUnbounded<S>(cfg: Config<S>, name: string, e: Value, n: nat)
    requires cfg.handles(name) && AllNormal([e])
    ensures var s := Run(cfg, AcksRejected(name, e, n));
      && Lags(s, n) && |s.store.log| - Base(s.store) == n
  {
    if n == 0 {
      RunSnoc(cfg, [], Start);
      RunSnoc(cfg, [Start], ReplayTail);
      assert [] + [Start] == [Start] && [Start] + [ReplayTail] == [Start, ReplayTail];
      FirstActivation(cfg);
    } else {
      TailIsUnbounded(cfg, name, e, n - 1);
      RunThen(cfg, AcksRejected(name, e, n - 1), AckRejected(name, e, n - 1));
      LagsMore(cfg, Run(cfg, AcksRejected(name, e, n - 1)), name, e, n - 1);
    }
    assert Latest(Run(cfg, AcksRejected(name, e, n)).store).None?;
  }

  /** One owner and no rejected ack: nothing bumps the fence under the host. */
  predicate Clean(step: Step) {
    !step.BumpFence? && step != AckItem(false)
  }

  predicate AllClean(steps: seq<Step>) {
    forall i :: 0 <= i < |steps| ==> Clean(steps[i])
  }

  ghost predicate Owned<S>(s: Sys<S>) {
    && FenceOf(s.store) == 0
    && match s.host
       case Down => true
       case Loaded(m) => m.token == 0
       case Replayed(m) => m.token == 0
       case Up(live) => live.mem.token == 0
  }

  lemma NextOwned<S>(cfg: Config<S>, s: Sys<S>, step: Step)
    requires Clean(step) && Owned(s)
    ensures Owned(Next(cfg, s, step))
  {
    if step.Offer? && s.host.Up? {
      EnqueueAllKeeps(cfg.capacity, s.host.live.(offer := []), s.host.live.offer);
    }
  }

  lemma {:induction false} RunOwned<S>(cfg: Config<S>, steps: seq<Step>)
    requires AllClean(steps)
    ensures Owned(Run(cfg, steps))
  {
    if steps != [] {
      RunOwned(cfg, steps[..|steps| - 1]);
      NextOwned(cfg, Run(cfg, steps[..|steps| - 1]), steps[|steps| - 1]);
    }
  }

  /** The single owner of v1: every storage call it makes passes, so every run of it is smooth. */
  lemma SingleOwnerIsSmooth<S>(cfg: Config<S>, steps: seq<Step>)
    requires AllClean(steps)
    ensures AllSmooth(cfg, steps)
  {
    forall i | 0 <= i < |steps| ensures Smooth(cfg, Run(cfg, steps[..i]), steps[i]) {
      RunOwned(cfg, steps[..i]);
      RunShape(cfg, steps[..i]);
      assert Clean(steps[i]);
    }
  }

  // ---------------------------------------------------------------- The stashed token

  /** The host that a cold start produces may write if and only if there was a snapshot or no bump yet. */
  lemma TokenFreshIff<S>(cfg: Config<S>, store: Store<S>)
    ensures Appends(LoadStore(store), Some(LoadMem(cfg, store).token)) <==>
            Latest(store).Some? || FenceOf(store) == 0
  {
  }

  /** Registered, bumped, restarted before the first snapshot: the new host holds a token nobody stores. */
  lemma RegistrationStrandsToken<S>(cfg: Config<S>)
    ensures var s := Run(cfg, [Start, BumpFence(0), Crash, Start]);
      s.host.Loaded? && s.host.mem.token == 1 && FenceOf(s.store) == 0
  {
    var steps := [Start, BumpFence(0), Crash, Start];
    RunThen(cfg, [], steps);
    assert [] + steps == steps;
    var s0: Sys<S> := Fresh();
    var s1 := Next(cfg, s0, Start);
    var s2 := Next(cfg, s1, BumpFence(0));
    assert s2.store == Store(Some(1), map[], [], NoInbox);
    var s3 := Next(cfg, s2, Crash);
    var s4 := Next(cfg, s3, Start);
    assert Latest(s3.store).None?;
    assert steps[1..][1..][1..] == [Start] && [Start][1..] == [];
    assert RunFrom(cfg, s4, []) == s4;
    assert RunFrom(cfg, s3, [Start]) == s4;
    assert RunFrom(cfg, s2, steps[1..][1..]) == s4;
    assert RunFrom(cfg, s1, steps[1..]) == s4;
  }
}
