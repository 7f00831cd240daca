/**
 * An event-sourced actor host over its storage, one await at a time; only the reads and the
 * registration that begin an activation are one step. The store survives a crash; the host, its
 * mailbox and the tells in flight do not.
 */
module Host {
  import opened Wrappers
  import opened Events
  import opened Memory
  import opened Inbox
  import opened Storage

  datatype Item = Tell(id: InboxId, kind: string, payload: Value) | Call(name: string, args: Value)

  function NameOf(item: Item): string {
    match item case Tell(_, kind, _) => kind case Call(name, _) => name
  }

  // ---------------------------------------------------------------- What the host's methods compute

  /** Cold start registers the actor row; that resets a fence already stored. */
  ghost function LoadStore<S>(store: Store<S>): Store<S> {
    if Latest(store).None? then Register(store) else store
  }

  /** The token is read before the row is registered. */
  ghost function LoadMem<S>(cfg: Config<S>, store: Store<S>): Mem<S> {
    var latest := Latest(store);
    if latest.None? then Mem(cfg.initial, 0, 0, false, FenceOf(store))
    else Mem(store.snaps[latest.value], latest.value, 0, false, FenceOf(store))
  }

  /** Folds the events after the snapshot; a long enough tail asks for a snapshot. */
  function ReplayMem<S>(cfg: Config<S>, store: Store<S>, m: Mem<S>): Mem<S> {
    if |store.log| <= m.currentSeq then m
    else
      var rows := Tail(store, m.currentSeq + 1);
      Mem(Replay(cfg.reduce, m.state, rows), m.currentSeq + |rows|, |rows|,
          m.dirty || |rows| >= cfg.everyN, m.token)
  }

  predicate CanFlush<S>(store: Store<S>, m: Mem<S>) { !m.dirty || Passes(store, Some(m.token)) }

  function FlushStore<S>(store: Store<S>, m: Mem<S>): Store<S> {
    if m.dirty then Save(store, m.currentSeq, m.state, Some(m.token)) else store
  }

  /** The dirty flag goes down before the write, so it stays down when the write is refused. */
  function FlushMem<S>(store: Store<S>, m: Mem<S>): Mem<S> {
    if !m.dirty then m else m.(dirty := false, since := if CanFlush(store, m) then 0 else m.since)
  }

  // ---------------------------------------------------------------- The machine

  /** Why an inbox entry was acknowledged. `Committed(at, rows)`: the rows its handler returned are log[at..]. */
  datatype Fate = Committed(at: nat, rows: seq<EventRow>) | Unhandled | Dropped

  /** Where the worker stands; each constructor but `Waiting` and `Exited` is between two awaits of a turn. */
  datatype Turn =
    | Waiting
    | Handling(item: Item)
    | Appended(item: Item, events: seq<Value>, seqNo: int)
    | Acking(item: Item, fate: Fate, settles: bool)
    | Settling
    | Flushing
    | Exited

  datatype Live<S> = Live(mem: Mem<S>, buffer: seq<Item>, closed: bool, turn: Turn, offer: seq<InboxRecord>)

  datatype Host<S> = Down | Loaded(mem: Mem<S>) | Replayed(mem: Mem<S>) | Up(live: Live<S>)

  /** What has happened, kept for the statements: no step reads it. `batch` is the size of the last append. */
  datatype Past = Past(issued: seq<InboxRecord>, fates: map<InboxId, Fate>, events: seq<Value>, batch: nat)

  datatype Sys<S> = Sys(
    store: Store<S>,
    next: nat,
    host: Host<S>,
    tells: set<Item>,
    drops: set<InboxId>,
    past: Past)

  datatype Outcome = Throws | Returns(value: Value)

  datatype Step =
    | Start | ReplayTail | FlushTail | Offer
    | TellAppend(now: int, skip: nat, kind: string, payload: Value) | TellEnqueue(item: Item) | DropAck(id: InboxId)
    | CallEnqueue(name: string, args: Value)
    | Handle(outcome: Outcome) | FoldBatch | AckItem(ok: bool) | Settle | FlushTurn
    | Close | Deactivate | Crash | BumpFence(expected: int)

  datatype Verdict = Accepted | Full | Shut

  function Judge<S>(capacity: nat, live: Live<S>): Verdict {
    if live.closed then Shut
    else if live.turn.Waiting? || |live.buffer| < capacity then Accepted
    else Full
  }

  /** `mailbox.enqueue`: a waiting worker is handed the item directly. */
  function Enqueue<S>(capacity: nat, live: Live<S>, item: Item): Live<S> {
    if Judge(capacity, live) != Accepted then live
    else if live.turn.Waiting? then live.(turn := Handling(item))
    else live.(buffer := live.buffer + [item])
  }

  function ItemOf(r: InboxRecord): Item { Tell(r.id, r.kind, r.payload) }

  function EnqueueAll<S>(capacity: nat, live: Live<S>, records: seq<InboxRecord>): Live<S>
    decreases |records|
  {
    if records == [] then live
    else EnqueueAll(capacity, Enqueue(capacity, live, ItemOf(records[0])), records[1..])
  }

  /** The end of a turn: the worker dequeues again. */
  function Finish<S>(live: Live<S>): Live<S> {
    if live.buffer != [] then live.(turn := Handling(live.buffer[0]), buffer := live.buffer[1..])
    else live.(turn := if live.closed then Exited else Waiting)
  }

  function Opened<S>(store: Store<S>, m: Mem<S>): Host<S> {
    Up(Live(m, [], false, Waiting, Pending(store.inbox.bucket, store.inbox.acked)))
  }

  function AckOne<S>(s: Sys<S>, id: InboxId, fate: Fate): Sys<S> {
    s.(store := s.store.(inbox := Ack(s.store.inbox, {id})),
       past := s.past.(fates := s.past.fates[id := fate]))
  }

  function WithLive<S>(s: Sys<S>, live: Live<S>): Sys<S> { s.(host := Up(live)) }

  /** The handler has returned or thrown; up to and including the append of its events. */
  function Handled<S>(cfg: Config<S>, s: Sys<S>, outcome: Outcome): Sys<S>
    requires s.host.Up? && s.host.live.turn.Handling?
  {
    var live := s.host.live;
    var item := live.turn.item;
    if !cfg.handles(NameOf(item)) then
      WithLive(s, if item.Tell? then live.(turn := Acking(item, Unhandled, false)) else Finish(live))
    else if outcome.Throws? || !outcome.value.Arr? || !AllNormal(outcome.value.items) then
      WithLive(s, Finish(live))
    else
      var events := outcome.value.items;
      if events == [] then
        WithLive(s, if item.Tell? then live.(turn := Acking(item, Committed(|s.store.log|, []), false)) else Finish(live))
      else if !Appends(s.store, Some(live.mem.token)) then
        WithLive(s, Finish(live))
      else
        var store := AppendRows(s.store, Rows(events), Some(live.mem.token));
        s.(store := store,
           host := Up(live.(turn := Appended(item, events, |store.log|))),
           past := s.past.(events := s.past.events + events, batch := |events|))
  }

  function Folded<S>(cfg: Config<S>, live: Live<S>): Live<S>
    requires live.turn.Appended?
  {
    var Appended(item, events, seqNo) := live.turn;
    live.(
      mem := FoldMem(cfg, live.mem, events, seqNo),
      turn := if item.Tell? && |events| <= seqNo && AllNormal(events)
              then Acking(item, Committed(seqNo - |events|, Rows(events)), true) else Settling)
  }

  ghost function Next<S>(cfg: Config<S>, s: Sys<S>, step: Step): Sys<S> {
    match step
    case Start =>
      if !s.host.Down? then s else s.(store := LoadStore(s.store), host := Loaded(LoadMem(cfg, s.store)))
    case ReplayTail =>
      if !s.host.Loaded? then s
      else
        var m := ReplayMem(cfg, s.store, s.host.mem);
        s.(host := if m.dirty then Replayed(m) else Opened(s.store, m))
    case FlushTail =>
      if !s.host.Replayed? then s
      else
        var m, store := FlushMem(s.store, s.host.mem), FlushStore(s.store, s.host.mem);
        s.(store := store, host := if CanFlush(s.store, s.host.mem) then Opened(store, m) else Down)
    case Offer =>
      if !s.host.Up? then s
      else WithLive(s, EnqueueAll(cfg.capacity, s.host.live.(offer := []), s.host.live.offer))
    case TellAppend(now, skip, kind, payload) =>
      if !s.host.Up? then s
      else
        var r := InboxRecord(InboxId(now, s.next + skip), kind, payload);
        s.(store := s.store.(inbox := Append(s.store.inbox, r)),
           next := s.next + skip + 1,
           tells := s.tells + {ItemOf(r)},
           past := s.past.(issued := s.past.issued + [r]))
    // A tell that outlives its host finds the old mailbox closed.
    case TellEnqueue(item) =>
      if item !in s.tells || !item.Tell? || s.host.Loaded? || s.host.Replayed? then s
      else if s.host.Down? then s.(tells := s.tells - {item})
      else
        s.(tells := s.tells - {item},
           host := Up(Enqueue(cfg.capacity, s.host.live, item)),
           drops := if Judge(cfg.capacity, s.host.live) == Full then s.drops + {item.id} else s.drops)
    case DropAck(id) =>
      if id !in s.drops then s else AckOne(s, id, Dropped).(drops := s.drops - {id})
    case CallEnqueue(name, args) =>
      if !s.host.Up? || |s.host.live.buffer| >= cfg.capacity then s
      else WithLive(s, Enqueue(cfg.capacity, s.host.live, Call(name, args)))
    case Handle(outcome) =>
      if s.host.Up? && s.host.live.turn.Handling? then Handled(cfg, s, outcome) else s
    case FoldBatch =>
      if s.host.Up? && s.host.live.turn.Appended? then WithLive(s, Folded(cfg, s.host.live)) else s
    case AckItem(ok) =>
      if s.host.Up? && s.host.live.turn.Acking? && s.host.live.turn.item.Tell? then
        var live := s.host.live;
        if ok then
          WithLive(AckOne(s, live.turn.item.id, live.turn.fate),
                   if live.turn.settles then live.(turn := Settling) else Finish(live))
        else WithLive(s, Finish(live))
      else s
    case Settle =>
      if s.host.Up? && s.host.live.turn.Settling? then
        var live := s.host.live;
        WithLive(s, if live.mem.since >= cfg.everyN then live.(turn := Flushing) else Finish(live))
      else s
    case FlushTurn =>
      if s.host.Up? && s.host.live.turn.Flushing? then
        var live := s.host.live;
        s.(store := FlushStore(s.store, live.mem),
           host := Up(Finish(live.(mem := FlushMem(s.store, live.mem)))))
      else s
    case Close =>
      if !s.host.Up? then s
      else
        var live := s.host.live.(closed := true);
        WithLive(s, if live.turn.Waiting? then live.(turn := Exited) else live)
    case Deactivate =>
      if s.host.Up? && s.host.live.turn.Exited? then
        s.(store := FlushStore(s.store, s.host.live.mem), host := Down)
      else s
    case Crash => s.(host := Down, tells := {}, drops := {})
    case BumpFence(expected) => s.(store := Bump(s.store, expected))
  }

  function Fresh<S>(): Sys<S> {
    Sys(NoStore(), 0, Down, {}, {}, Past([], map[], [], 0))
  }

  ghost function Run<S>(cfg: Config<S>, steps: seq<Step>): Sys<S> {
    if steps == [] then Fresh() else Next(cfg, Run(cfg, steps[..|steps| - 1]), steps[|steps| - 1])
  }

  ghost function RunFrom<S>(cfg: Config<S>, s: Sys<S>, steps: seq<Step>): Sys<S>
    decreases |steps|
  {
    if steps == [] then s else RunFrom(cfg, Next(cfg, s, steps[0]), steps[1..])
  }

  lemma {:induction false} RunThen<S>(cfg: Config<S>, a: seq<Step>, b: seq<Step>)
    ensures Run(cfg, a + b) == RunFrom(cfg, Run(cfg, a), b)
    decreases |b|
  {
    if b == [] {
      assert a + b == a;
    } else {
      var a' := a + [b[0]];
      assert a'[..|a'| - 1] == a && a' + b[1..] == a + b;
      RunThen(cfg, a', b[1..]);
    }
  }

  lemma RunSnoc<S>(cfg: Config<S>, steps: seq<Step>, step: Step)
    ensures Run(cfg, steps + [step]) == Next(cfg, Run(cfg, steps), step)
  {
    assert (steps + [step])[..|steps|] == steps;
  }

  lemma RunFive<S>(cfg: Config<S>, s: Sys<S>, a: Step, b: Step, c: Step, d: Step, e: Step)
    ensures RunFrom(cfg, s, [a, b, c, d, e]) == Next(cfg, Next(cfg, Next(cfg, Next(cfg, Next(cfg, s, a), b), c), d), e)
  {
    var s1 := Next(cfg, s, a);
    var s2 := Next(cfg, s1, b);
    var s3 := Next(cfg, s2, c);
    var s4 := Next(cfg, s3, d);
    assert [a, b, c, d, e][1..] == [b, c, d, e] && [b, c, d, e][1..] == [c, d, e];
    assert [c, d, e][1..] == [d, e] && [d, e][1..] == [e] && [e][1..] == [];
    assert RunFrom(cfg, s4, [e]) == RunFrom(cfg, Next(cfg, s4, e), []);
    assert RunFrom(cfg, s3, [d, e]) == RunFrom(cfg, s4, [e]);
    assert RunFrom(cfg, s2, [c, d, e]) == RunFrom(cfg, s3, [d, e]);
    assert RunFrom(cfg, s1, [b, c, d, e]) == RunFrom(cfg, s2, [c, d, e]);
  }
}
