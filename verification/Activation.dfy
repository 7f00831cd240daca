/** What an activation that nothing disturbs leaves behind. */
module Activation {
  import opened Wrappers
  import opened Events
  import opened Inbox
  import opened Storage
  import opened Host
  import opened Memory
  import opened Recovery

  const ActivationSteps: seq<Step> := [Start, ReplayTail, FlushTail]

  lemma OneByOne<T>(a: seq<T>, x: T, y: T, z: T)
    ensures a + [x, y, z] == a + [x] + [y] + [z]
  {
  }

  lemma RunTwo<S>(cfg: Config<S>, steps: seq<Step>, a: Step, b: Step)
    ensures Run(cfg, steps + [a] + [b]) == Next(cfg, Next(cfg, Run(cfg, steps), a), b)
  {
    assert Run(cfg, steps + [a] + [b]) == Next(cfg, Run(cfg, steps + [a]), b) by {
      RunSnoc(cfg, steps + [a], b);
    }
    assert Run(cfg, steps + [a]) == Next(cfg, Run(cfg, steps), a) by {
      RunSnoc(cfg, steps, a);
    }
  }

  lemma ActivatedBySteps<S>(cfg: Config<S>, steps: seq<Step>)
    ensures Run(cfg, steps + ActivationSteps) ==
            Next(cfg, Next(cfg, Next(cfg, Run(cfg, steps), Start), ReplayTail), FlushTail)
  {
    OneByOne(steps, Start, ReplayTail, FlushTail);
    assert Run(cfg, steps + ActivationSteps) == Next(cfg, Run(cfg, steps + [Start] + [ReplayTail]), FlushTail) by {
      RunSnoc(cfg, steps + [Start] + [ReplayTail], FlushTail);
    }
    RunTwo(cfg, steps, Start, ReplayTail);
  }

  /** A host in service with nothing in its mailbox yet; what it found pending is still to be offered. */
  ghost predicate Opens<S>(host: Host<S>, m: Mem<S>, pending: seq<InboxRecord>) {
    host == Up(Live(m, [], false, Waiting, pending))
  }

  /** The tail that an activation replays. */
  ghost function TailLength<S>(store: Store<S>): int { |store.log| - Base(store) }

  /** The token read before the registration is the one stored after it. */
  ghost predicate KeepsToken<S>(store: Store<S>) { Latest(store).Some? || FenceOf(store) == 0 }

  lemma ColdStartCounts<S>(cfg: Config<S>, s: Sys<S>)
    requires Shape(s)
    ensures var m := ColdStart(cfg, s.store);
      && Counted(LoadStore(s.store), m, |s.store.log|) && Base(LoadStore(s.store)) == Base(s.store)
      && (m.dirty <==> TailLength(s.store) > 0 && TailLength(s.store) >= cfg.everyN)
      && (Passes(LoadStore(s.store), Some(m.token)) <==> KeepsToken(s.store))
      && Shape(s.(store := LoadStore(s.store), host := Down))
  {
    BaseInRange(s.store);
    BaseOfSnaps(s.store, LoadStore(s.store));
    ReplayShape(cfg, LoadStore(s.store), LoadMem(cfg, s.store));
  }

  /**
   * In every run: a tail shorter than N is replayed and no snapshot is written. A longer one becomes a
   * snapshot at the head of the log and the host starts to count from 0, if its token is still the stored
   * one; otherwise the activation fails and writes no snapshot.
   */
  lemma ActivationFlushesIff<S>(cfg: Config<S>, steps: seq<Step>)
    requires Run(cfg, steps).host.Down?
    ensures var s := Run(cfg, steps);
      var t := Run(cfg, steps + ActivationSteps);
      var cold, n := ColdStart(cfg, s.store), TailLength(s.store);
      var pending := Pending(s.store.inbox.bucket, s.store.inbox.acked);
      && t.store.log == s.store.log && t.store.inbox == s.store.inbox
      && cold.currentSeq == |s.store.log|
      && (n == 0 || n < cfg.everyN ==>
            t.store.snaps == s.store.snaps && cold.since == n && Opens(t.host, cold, pending))
      && (n > 0 && n >= cfg.everyN && KeepsToken(s.store) ==>
            && Base(t.store) == |t.store.log| && t.store.snaps == s.store.snaps[|t.store.log| := cold.state]
            && Opens(t.host, cold.(since := 0, dirty := false), pending))
      && (n > 0 && n >= cfg.everyN && !KeepsToken(s.store) ==> t.store.snaps == s.store.snaps && t.host.Down?)
  {
    var s := Run(cfg, steps);
    RunShape(cfg, steps);
    ActivatedBySteps(cfg, steps);
    ColdStartCounts(cfg, s);
    var cold := ColdStart(cfg, s.store);
    if cold.dirty && KeepsToken(s.store) {
      BaseAfterSave(LoadStore(s.store), |s.store.log|, cold.state);
    }
  }
}
