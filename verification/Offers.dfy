/** What an activation does with the entries it finds pending, and in which order the worker gets them. */
module Offers {
  import opened Wrappers
  import opened Events
  import opened Inbox
  import opened Storage
  import opened Host
  import opened Memory
  import opened Recovery

  // ---------------------------------------------------------------- The mailbox between steps

  /** A waiting worker has nothing to take, a worker has left only a closed and drained mailbox. */
  predicate Tidy<S>(capacity: nat, live: Live<S>) {
    && (live.turn.Waiting? ==> live.buffer == [] && !live.closed)
    && (live.turn.Exited? ==> live.buffer == [] && live.closed)
    && |live.buffer| <= capacity
  }

  ghost predicate HostTidy<S>(cfg: Config<S>, host: Host<S>) { host.Up? ==> Tidy(cfg.capacity, host.live) }

  lemma {:induction false} EnqueueAllTidy<S>(capacity: nat, live: Live<S>, records: seq<InboxRecord>)
    requires Tidy(capacity, live)
    ensures Tidy(capacity, EnqueueAll(capacity, live, records))
    decreases |records|
  {
    if records != [] {
      EnqueueAllTidy(capacity, Enqueue(capacity, live, ItemOf(records[0])), records[1..]);
    }
  }

  lemma NextTidy<S>(cfg: Config<S>, s: Sys<S>, step: Step)
    requires HostTidy(cfg, s.host)
    ensures HostTidy(cfg, Next(cfg, s, step).host)
  {
    if step.Offer? && s.host.Up? {
      EnqueueAllTidy(cfg.capacity, s.host.live.(offer := []), s.host.live.offer);
    }
  }

  lemma {:induction false} RunTidy<S>(cfg: Config<S>, steps: seq<Step>)
    ensures HostTidy(cfg, Run(cfg, steps).host)
  {
    if steps != [] {
      RunTidy(cfg, steps[..|steps| - 1]);
      NextTidy(cfg, Run(cfg, steps[..|steps| - 1]), steps[|steps| - 1]);
    }
  }

  // ---------------------------------------------------------------- How much an offer places

  function ItemsOf(records: seq<InboxRecord>): seq<Item> {
    seq(|records|, i requires 0 <= i < |records| => ItemOf(records[i]))
  }

  function Least(a: nat, b: nat): nat { if a < b then a else b }

  /** How many of `n` offered entries find a place: one with a waiting worker, the rest in the buffer. */
  function Room<S>(capacity: nat, live: Live<S>, n: nat): (k: nat)
    requires Tidy(capacity, live)
    ensures k <= n
  {
    if live.closed then 0
    else Least(n, capacity - |live.buffer| + if live.turn.Waiting? then 1 else 0)
  }

  function Place<S>(live: Live<S>, items: seq<Item>): Live<S> {
    if items == [] then live
    else if live.turn.Waiting? then live.(turn := Handling(items[0]), buffer := items[1..])
    else live.(buffer := live.buffer + items)
  }

  lemma {:induction false} EnqueueAllPlaces<S>(capacity: nat, live: Live<S>, records: seq<InboxRecord>)
    requires Tidy(capacity, live)
    ensures EnqueueAll(capacity, live, records) == Place(live, ItemsOf(records[..Room(capacity, live, |records|)]))
    decreases |records|
  {
    if records != [] {
      var rest, next := records[1..], Enqueue(capacity, live, ItemOf(records[0]));
      EnqueueAllPlaces(capacity, next, rest);
      var k, n := Room(capacity, live, |records|), Room(capacity, next, |rest|);
      if k > 0 {
        assert n == k - 1;
        assert records[..k] == [records[0]] + rest[..n];
        assert ItemsOf(records[..k]) == [ItemOf(records[0])] + ItemsOf(rest[..n]);
        assert next.buffer + ItemsOf(rest[..n]) == Place(live, ItemsOf(records[..k])).buffer;
      }
    }
  }

  /**
   * Wherever the host stands when its offer arrives, in any run: as many of the pending entries as
   * there is room for join the mailbox, oldest first and behind what is already there. The offer
   * acknowledges nothing, so the rest stay pending.
   */
  lemma ActivationOffersPending<S>(cfg: Config<S>, steps: seq<Step>)
    requires Run(cfg, steps).host.Up?
    ensures var s := Run(cfg, steps);
      var live, t := s.host.live, Next(cfg, s, Offer);
      && Tidy(cfg.capacity, live)
      && t == WithLive(s, t.host.live)
      && t.host.live == Place(live.(offer := []), ItemsOf(live.offer[..Room(cfg.capacity, live, |live.offer|)]))
  {
    var live := Run(cfg, steps).host.live;
    RunTidy(cfg, steps);
    EnqueueAllPlaces(cfg.capacity, live.(offer := []), live.offer);
  }

  // ---------------------------------------------------------------- First in, first out

  ghost predicate StaysUp<S>(cfg: Config<S>, s: Sys<S>, steps: seq<Step>)
    decreases |steps|
  {
    s.host.Up? && (steps != [] ==> StaysUp(cfg, Next(cfg, s, steps[0]), steps[1..]))
  }

  /** What takes a host down: a crash, or a deactivation once its worker has left. */
  predicate Ends<S>(s: Sys<S>, step: Step) {
    step.Crash? || (step.Deactivate? && s.host.Up? && s.host.live.turn.Exited?)
  }

  /** Another activation finds a host that is up and leaves it alone: only its end takes it down. */
  lemma {:induction false} UpUntilEnded<S>(cfg: Config<S>, s: Sys<S>, steps: seq<Step>)
    requires s.host.Up?
    ensures StaysUp(cfg, s, steps) <==>
      forall k :: 0 <= k < |steps| ==> !Ends(RunFrom(cfg, s, steps[..k]), steps[k])
    decreases |steps|
  {
    if steps != [] {
      var t, rest := Next(cfg, s, steps[0]), steps[1..];
      assert steps[..0] == [] && RunFrom(cfg, s, steps[..0]) == s;
      assert t.host.Up? <==> !Ends(s, steps[0]);
      if t.host.Up? {
        UpUntilEnded(cfg, t, rest);
        forall k | 0 < k < |steps| ensures RunFrom(cfg, s, steps[..k]) == RunFrom(cfg, t, rest[..k - 1]) && rest[k - 1] == steps[k] {
          assert steps[..k][1..] == rest[..k - 1];
        }
      }
    }
  }

  /** Nor does it restart an activation that is under way. */
  lemma ActivatesOnce<S>(cfg: Config<S>, s: Sys<S>, step: Step)
    ensures s.host.Loaded? && !step.ReplayTail? && !step.Crash? ==> Next(cfg, s, step).host == s.host
    ensures s.host.Replayed? && !step.FlushTail? && !step.Crash? ==> Next(cfg, s, step).host == s.host
    ensures s.host.Down? && !step.Start? ==> Next(cfg, s, step).host == s.host
  {
  }

  /** The items a step puts into the mailbox. */
  ghost function Accepts<S>(cfg: Config<S>, s: Sys<S>, step: Step): seq<Item>
    requires s.host.Up? && HostTidy(cfg, s.host)
  {
    var live := s.host.live;
    match step
    case TellEnqueue(item) =>
      if item in s.tells && item.Tell? && Judge(cfg.capacity, live) == Accepted then [item] else []
    case CallEnqueue(name, args) =>
      if |live.buffer| < cfg.capacity && Judge(cfg.capacity, live) == Accepted then [Call(name, args)] else []
    case Offer => ItemsOf(live.offer[..Room(cfg.capacity, live, |live.offer|)])
    case _ => []
  }

  /** The item the worker takes in a step: it was idle or between turns, and now handles one. */
  ghost function Takes<S>(cfg: Config<S>, s: Sys<S>, step: Step): seq<Item>
    requires s.host.Up?
  {
    var t := Next(cfg, s, step);
    if t.host.Up? && t.host.live.turn.Handling? && (step.Handle? || !s.host.live.turn.Handling?)
    then [t.host.live.turn.item] else []
  }

  ghost function Arrivals<S>(cfg: Config<S>, s: Sys<S>, steps: seq<Step>): seq<Item>
    requires StaysUp(cfg, s, steps) && HostTidy(cfg, s.host)
    decreases |steps|
  {
    if steps == [] then []
    else
      NextTidy(cfg, s, steps[0]);
      Accepts(cfg, s, steps[0]) + Arrivals(cfg, Next(cfg, s, steps[0]), steps[1..])
  }

  ghost function Served<S>(cfg: Config<S>, s: Sys<S>, steps: seq<Step>): seq<Item>
    requires StaysUp(cfg, s, steps)
    decreases |steps|
  {
    if steps == [] then []
    else Takes(cfg, s, steps[0]) + Served(cfg, Next(cfg, s, steps[0]), steps[1..])
  }

  lemma OfferInOrder<S>(cfg: Config<S>, s: Sys<S>)
    requires s.host.Up? && HostTidy(cfg, s.host)
    ensures s.host.live.buffer + Accepts(cfg, s, Offer) == Takes(cfg, s, Offer) + Next(cfg, s, Offer).host.live.buffer
  {
    EnqueueAllPlaces(cfg.capacity, s.host.live.(offer := []), s.host.live.offer);
  }

  /** The item a worker takes when its turn ends. */
  function TakenBy<S>(live: Live<S>): seq<Item> { if live.turn.Handling? then [live.turn.item] else [] }

  lemma FinishInOrder<S>(live: Live<S>)
    ensures live.buffer == TakenBy(Finish(live)) + Finish(live).buffer
  {
  }

  lemma EnqueueInOrder<S>(cfg: Config<S>, s: Sys<S>, step: Step)
    requires (step.TellEnqueue? || step.CallEnqueue?) && s.host.Up? && HostTidy(cfg, s.host)
    ensures s.host.live.buffer + Accepts(cfg, s, step) == Takes(cfg, s, step) + Next(cfg, s, step).host.live.buffer
  {
  }

  lemma HandleInOrder<S>(cfg: Config<S>, s: Sys<S>, step: Step)
    requires step.Handle? && s.host.Up?
    ensures Next(cfg, s, step).host.Up?
    ensures s.host.live.buffer == Takes(cfg, s, step) + Next(cfg, s, step).host.live.buffer
  {
    FinishInOrder(s.host.live);
  }

  lemma AckInOrder<S>(cfg: Config<S>, s: Sys<S>, step: Step)
    requires (step.AckItem? || step.Settle?) && s.host.Up?
    ensures Next(cfg, s, step).host.Up?
    ensures s.host.live.buffer == Takes(cfg, s, step) + Next(cfg, s, step).host.live.buffer
  {
    FinishInOrder(s.host.live);
  }

  lemma FlushInOrder<S>(cfg: Config<S>, s: Sys<S>)
    requires s.host.Up?
    ensures Next(cfg, s, FlushTurn).host.Up?
    ensures s.host.live.buffer == Takes(cfg, s, FlushTurn) + Next(cfg, s, FlushTurn).host.live.buffer
  {
    FinishInOrder(s.host.live.(mem := FlushMem(s.store, s.host.live.mem)));
  }

  lemma TurnInOrder<S>(cfg: Config<S>, s: Sys<S>, step: Step)
    requires !step.TellEnqueue? && !step.CallEnqueue? && !step.Offer?
    requires s.host.Up? && Next(cfg, s, step).host.Up? && HostTidy(cfg, s.host)
    ensures s.host.live.buffer == Takes(cfg, s, step) + Next(cfg, s, step).host.live.buffer
  {
    if step.Handle? {
      HandleInOrder(cfg, s, step);
    } else if step.AckItem? || step.Settle? {
      AckInOrder(cfg, s, step);
    } else if step.FlushTurn? {
      FlushInOrder(cfg, s);
    }
  }

  lemma NextInOrder<S>(cfg: Config<S>, s: Sys<S>, step: Step)
    requires s.host.Up? && Next(cfg, s, step).host.Up? && HostTidy(cfg, s.host)
    ensures s.host.live.buffer + Accepts(cfg, s, step) == Takes(cfg, s, step) + Next(cfg, s, step).host.live.buffer
  {
    if step.Offer? {
      OfferInOrder(cfg, s);
    } else if step.TellEnqueue? || step.CallEnqueue? {
      EnqueueInOrder(cfg, s, step);
    } else {
      TurnInOrder(cfg, s, step);
      assert s.host.live.buffer + [] == s.host.live.buffer;
    }
  }

  lemma Chain<T>(b: seq<T>, x: seq<T>, xs: seq<T>, y: seq<T>, mid: seq<T>, ys: seq<T>, end: seq<T>)
    requires b + x == y + mid && mid + xs == ys + end
    ensures b + (x + xs) == (y + ys) + end
  {
    assert b + (x + xs) == (b + x) + xs == (y + mid) + xs == y + (mid + xs);
    assert y + (ys + end) == (y + ys) + end;
  }

  /** The worker gets items in the order the mailbox took them, and what it has not got yet is the buffer. */
  lemma {:induction false} ServedInOrder<S>(cfg: Config<S>, s: Sys<S>, steps: seq<Step>)
    requires StaysUp(cfg, s, steps) && HostTidy(cfg, s.host)
    ensures RunFrom(cfg, s, steps).host.Up?
    ensures s.host.live.buffer + Arrivals(cfg, s, steps) ==
            Served(cfg, s, steps) + RunFrom(cfg, s, steps).host.live.buffer
    decreases |steps|
  {
    if steps != [] {
      var t := Next(cfg, s, steps[0]);
      NextTidy(cfg, s, steps[0]);
      NextInOrder(cfg, s, steps[0]);
      ServedInOrder(cfg, t, steps[1..]);
      Chain(s.host.live.buffer, Accepts(cfg, s, steps[0]), Arrivals(cfg, t, steps[1..]),
            Takes(cfg, s, steps[0]), t.host.live.buffer, Served(cfg, t, steps[1..]),
            RunFrom(cfg, t, steps[1..]).host.live.buffer);
    }
  }

  lemma {:induction false} SplitRun<S>(cfg: Config<S>, s: Sys<S>, a: seq<Step>, b: seq<Step>)
    requires HostTidy(cfg, s.host) && StaysUp(cfg, s, a + b)
    ensures var mid := RunFrom(cfg, s, a);
      && StaysUp(cfg, s, a) && StaysUp(cfg, mid, b) && HostTidy(cfg, mid.host)
      && RunFrom(cfg, s, a + b) == RunFrom(cfg, mid, b)
      && Arrivals(cfg, s, a + b) == Arrivals(cfg, s, a) + Arrivals(cfg, mid, b)
    decreases |a|
  {
    if a == [] {
      assert a + b == b;
    } else {
      assert (a + b)[0] == a[0] && (a + b)[1..] == a[1..] + b;
      NextTidy(cfg, s, a[0]);
      SplitRun(cfg, Next(cfg, s, a[0]), a[1..], b);
    }
  }

  /** Only an `Offer` step takes the offer. */
  lemma {:induction false} OfferWaits<S>(cfg: Config<S>, s: Sys<S>, steps: seq<Step>)
    requires StaysUp(cfg, s, steps) && Offer !in steps
    ensures RunFrom(cfg, s, steps).host.Up? && RunFrom(cfg, s, steps).host.live.offer == s.host.live.offer
    decreases |steps|
  {
    if steps != [] {
      OfferWaits(cfg, Next(cfg, s, steps[0]), steps[1..]);
    }
  }

  /** An item that is none of the entries found pending. */
  predicate Newer(pending: seq<InboxRecord>, item: Item) { item.Call? || item.id !in Ids(pending) }

  /** The items of the line before position `end` come before every newer one. */
  ghost predicate BeforeNewer(pending: seq<InboxRecord>, line: seq<Item>, end: nat) {
    forall j :: 0 <= j < |line| && Newer(pending, line[j]) ==> end <= j
  }

  /** The line goes on from `first` with `k` pending entries, which come before newer ones iff `first` has none. */
  ghost predicate Ordered(pending: seq<InboxRecord>, line: seq<Item>, first: seq<Item>, k: nat)
    requires k <= |pending|
  {
    && first + ItemsOf(pending[..k]) <= line
    && (BeforeNewer(pending, line, |first| + k) <==> forall x :: x in first ==> !Newer(pending, x))
  }

  lemma LineOrder(pending: seq<InboxRecord>, line: seq<Item>, a: seq<Item>, k: nat, b: seq<Item>)
    requires k <= |pending| && line == a + ItemsOf(pending[..k]) + b
    ensures Ordered(pending, line, a, k)
  {
    forall j | |a| <= j < |a| + k ensures !Newer(pending, line[j]) {
      assert line[j] == ItemOf(pending[j - |a|]);
    }
    if BeforeNewer(pending, line, |a| + k) {
      forall x | x in a ensures !Newer(pending, x) {
        var j :| 0 <= j < |a| && a[j] == x;
        assert line[j] == x;
      }
    } else {
      var j :| 0 <= j < |line| && Newer(pending, line[j]) && j < |a| + k;
      assert a[j] in a;
    }
  }

  lemma {:induction false} EndsUp<S>(cfg: Config<S>, s: Sys<S>, steps: seq<Step>)
    requires StaysUp(cfg, s, steps)
    ensures RunFrom(cfg, s, steps).host.Up?
    decreases |steps|
  {
    if steps != [] {
      EndsUp(cfg, Next(cfg, s, steps[0]), steps[1..]);
    }
  }

  /** The line the worker is served from: what it has taken, and what waits for it. */
  ghost function Line<S>(cfg: Config<S>, s: Sys<S>, steps: seq<Step>): seq<Item>
    requires StaysUp(cfg, s, steps)
  {
    EndsUp(cfg, s, steps);
    Served(cfg, s, steps) + RunFrom(cfg, s, steps).host.live.buffer
  }

  lemma LineIsArrivals<S>(cfg: Config<S>, s: Sys<S>, steps: seq<Step>)
    requires StaysUp(cfg, s, steps) && HostTidy(cfg, s.host) && s.host.live.buffer == []
    ensures Line(cfg, s, steps) == Arrivals(cfg, s, steps)
  {
    ServedInOrder(cfg, s, steps);
    assert [] + Arrivals(cfg, s, steps) == Arrivals(cfg, s, steps);
  }

  /** A run that starts with the offer takes what there is room for, and goes on. */
  lemma OfferFirst<S>(cfg: Config<S>, s: Sys<S>, steps: seq<Step>) returns (rest: seq<Item>)
    requires steps != [] && steps[0] == Offer && StaysUp(cfg, s, steps) && HostTidy(cfg, s.host)
    ensures var offer := s.host.live.offer;
      Arrivals(cfg, s, steps) == ItemsOf(offer[..Room(cfg.capacity, s.host.live, |offer|)]) + rest
  {
    NextTidy(cfg, s, Offer);
    rest := Arrivals(cfg, Next(cfg, s, Offer), steps[1..]);
  }

  /** The host is still up, and still has its offer, when the offer's turn comes. */
  lemma OfferIsThere<S>(cfg: Config<S>, s: Sys<S>, between: seq<Step>, onward: seq<Step>)
    requires s.host.Up? && HostTidy(cfg, s.host) && Offer !in between && StaysUp(cfg, s, between + onward)
    ensures StaysUp(cfg, s, between)
    ensures var mid := RunFrom(cfg, s, between);
      && mid.host.Up? && mid.host.live.offer == s.host.live.offer && HostTidy(cfg, mid.host) && StaysUp(cfg, mid, onward)
      && Arrivals(cfg, s, between + onward) == Arrivals(cfg, s, between) + Arrivals(cfg, mid, onward)
  {
    SplitRun(cfg, s, between, onward);
    OfferWaits(cfg, s, between);
  }

  /** What arrived before the offer, what the offer placed, and the rest. */
  lemma OfferLine<S>(cfg: Config<S>, s: Sys<S>, between: seq<Step>, onward: seq<Step>) returns (rest: seq<Item>)
    requires s.host.Up? && s.host.live.buffer == [] && HostTidy(cfg, s.host)
    requires Offer !in between && onward != [] && onward[0] == Offer && StaysUp(cfg, s, between + onward)
    ensures StaysUp(cfg, s, between) && HostTidy(cfg, RunFrom(cfg, s, between).host) && RunFrom(cfg, s, between).host.Up?
    ensures
      var offer := s.host.live.offer;
      Line(cfg, s, between + onward) == Arrivals(cfg, s, between) +
        ItemsOf(offer[..Room(cfg.capacity, RunFrom(cfg, s, between).host.live, |offer|)]) + rest
  {
    OfferIsThere(cfg, s, between, onward);
    rest := OfferFirst(cfg, RunFrom(cfg, s, between), onward);
    LineIsArrivals(cfg, s, between + onward);
  }

  /**
   * The order of service after an activation: whatever runs between the opening of the host and its
   * offer, the worker is given what arrived in between, then the re-offered entries, then what came
   * later. The re-offered entries come before every newer item if and only if no newer item was
   * accepted between the opening and the offer.
   */
  lemma OfferOrder<S>(cfg: Config<S>, s: Sys<S>, m: Mem<S>, between: seq<Step>, onward: seq<Step>)
    requires s.host == Opened(s.store, m) && Offer !in between && onward != [] && onward[0] == Offer
    requires StaysUp(cfg, s, between + onward)
    ensures StaysUp(cfg, s, between) && HostTidy(cfg, RunFrom(cfg, s, between).host) && RunFrom(cfg, s, between).host.Up?
    ensures
      var pending := Pending(s.store.inbox.bucket, s.store.inbox.acked);
      var k := Room(cfg.capacity, RunFrom(cfg, s, between).host.live, |pending|);
      Ordered(pending, Line(cfg, s, between + onward), Arrivals(cfg, s, between), k)
  {
    var pending := Pending(s.store.inbox.bucket, s.store.inbox.acked);
    var rest := OfferLine(cfg, s, between, onward);
    LineOrder(pending, Line(cfg, s, between + onward), Arrivals(cfg, s, between),
              Room(cfg.capacity, RunFrom(cfg, s, between).host.live, |pending|), rest);
  }

  // ---------------------------------------------------------------- A newer tell is served first

  /** A tell is stored, the process crashes, and a newer tell arrives before the next host makes its offer. */
  function NewerBefore(kind: string, payload: Value): seq<Step> {
    Reopened(kind, payload) + [TellAppend(0, 0, kind, payload)] + [TellEnqueue(Tell(InboxId(0, 1), kind, payload))]
  }

  function Reopened(kind: string, payload: Value): seq<Step> {
    [Start, ReplayTail] + [TellAppend(0, 0, kind, payload)] + [Crash] + [Start] + [ReplayTail]
  }

  lemma OpensAgain<S>(cfg: Config<S>, kind: string, payload: Value)
    ensures var r := InboxRecord(InboxId(0, 0), kind, payload);
      var told := Next(cfg, Idle(cfg), TellAppend(0, 0, kind, payload));
      var s := Next(cfg, Next(cfg, Next(cfg, told, Crash), Start), ReplayTail);
      && s.host == Up(Live(Mem(cfg.initial, 0, 0, false, 0), [], false, Waiting, [r]))
      && s.next == 1 && s.tells == {} && s.store.inbox == Inbox([r], {})
  {
    var r := InboxRecord(InboxId(0, 0), kind, payload);
    var told := Next(cfg, Idle(cfg), TellAppend(0, 0, kind, payload));
    assert told.store == Store(Some(0), map[], [], Inbox([r], {}));
    assert Latest(told.store).None?;
    assert Pending([r], {}) == [r] by {
      assert [r][1..] == [];
    }
  }

  lemma OpensOver<S>(cfg: Config<S>, kind: string, payload: Value)
    ensures var r := InboxRecord(InboxId(0, 0), kind, payload);
      var s := Run(cfg, Reopened(kind, payload));
      && s.host == Up(Live(Mem(cfg.initial, 0, 0, false, 0), [], false, Waiting, [r]))
      && s.next == 1 && s.tells == {} && s.store.inbox == Inbox([r], {})
  {
    var s2: seq<Step> := [Start, ReplayTail];
    var s3 := s2 + [TellAppend(0, 0, kind, payload)];
    var s4 := s3 + [Crash];
    assert Run(cfg, s2) == Idle(cfg) by {
      assert [] + [Start] == [Start] && [Start] + [ReplayTail] == s2;
      RunSnoc(cfg, [], Start);
      RunSnoc(cfg, [Start], ReplayTail);
      FirstActivation(cfg);
    }
    RunSnoc(cfg, s2, TellAppend(0, 0, kind, payload));
    RunSnoc(cfg, s3, Crash);
    RunSnoc(cfg, s4, Start);
    RunSnoc(cfg, s4 + [Start], ReplayTail);
    OpensAgain(cfg, kind, payload);
  }

  lemma NewerArrives<S>(cfg: Config<S>, s: Sys<S>, r: InboxRecord, kind: string, payload: Value)
    requires s.host.Up? && s.host.live == Live(s.host.live.mem, [], false, Waiting, [r]) && s.next == 1
    ensures var newer := Tell(InboxId(0, 1), kind, payload);
      Next(cfg, Next(cfg, s, TellAppend(0, 0, kind, payload)), TellEnqueue(newer)).host ==
      Up(s.host.live.(turn := Handling(newer)))
  {
    var told := Next(cfg, s, TellAppend(0, 0, kind, payload));
    assert ItemOf(InboxRecord(InboxId(0, 1), kind, payload)) in told.tells && told.host == s.host;
  }

  lemma OfferOne<S>(cfg: Config<S>, s: Sys<S>, r: InboxRecord, item: Item)
    requires s.host.Up? && s.host.live == Live(s.host.live.mem, [], false, Handling(item), [r])
    ensures var t := Next(cfg, s, Offer);
      t.host.Up? && t.host.live.turn == Handling(item) && t.host.live.buffer == if cfg.capacity > 0 then [ItemOf(r)] else []
  {
    var live := s.host.live.(offer := []);
    assert EnqueueAll(cfg.capacity, live, [r]) == Enqueue(cfg.capacity, live, ItemOf(r)) by {
      assert [r][1..] == [];
    }
  }

  /** The worker is handed the newer tell; the older one only joins the buffer behind it, if there is room. */
  lemma NewerIsServedFirst<S>(cfg: Config<S>, kind: string, payload: Value)
    ensures var s := Run(cfg, NewerBefore(kind, payload));
      var older, newer := Tell(InboxId(0, 0), kind, payload), Tell(InboxId(0, 1), kind, payload);
      && s.host.Up? && s.host.live.turn == Handling(newer)
      && var t := Next(cfg, s, Offer);
         t.host.Up? && t.host.live.turn == Handling(newer) && t.host.live.buffer == if cfg.capacity > 0 then [older] else []
  {
    var r, newer := InboxRecord(InboxId(0, 0), kind, payload), Tell(InboxId(0, 1), kind, payload);
    var before := Reopened(kind, payload);
    var told := before + [TellAppend(0, 0, kind, payload)];
    OpensOver(cfg, kind, payload);
    RunSnoc(cfg, before, TellAppend(0, 0, kind, payload));
    RunSnoc(cfg, told, TellEnqueue(newer));
    NewerArrives(cfg, Run(cfg, before), r, kind, payload);
    OfferOne(cfg, Run(cfg, told + [TellEnqueue(newer)]), r, newer);
  }
}
