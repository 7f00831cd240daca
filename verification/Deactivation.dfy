/** What a deactivation leaves behind: a host that has committed flushes, so its successor has nothing to replay. */
module Deactivation {
  import opened Wrappers
  import opened Events
  import opened Storage
  import opened Host
  import opened Memory
  import opened Recovery

  /** The host that is up has folded a batch since it opened. */
  ghost predicate HasCommitted<S>(cfg: Config<S>, steps: seq<Step>) {
    steps != [] && Run(cfg, steps).host.Up? &&
    var before, last := steps[..|steps| - 1], steps[|steps| - 1];
    Run(cfg, before).host.Up? && (HasCommitted(cfg, before) || Folds(Run(cfg, before), last))
  }

  predicate Folds<S>(s: Sys<S>, step: Step) { step.FoldBatch? && s.host.Up? && s.host.live.turn.Appended? }

  /**
   * The dirty flag of an open host goes up with its first batch only. As long as its token is the stored one,
   * a host that has committed and whose flag is down has flushed since.
   */
  ghost predicate Flushed<S>(s: Sys<S>, committed: bool) {
    s.host.Up? ==>
      var m := s.host.live.mem;
      && (m.dirty ==> committed)
      && (committed || s.host.live.turn.Appended? ==> m.token <= FenceOf(s.store))
      && (committed && !m.dirty && !s.host.live.turn.Appended? && m.token == FenceOf(s.store) ==>
            Base(s.store) == |s.store.log| > 0)
  }

  lemma OpenFlushed<S>(cfg: Config<S>, s: Sys<S>, step: Step)
    requires !s.host.Up? && Next(cfg, s, step).host.Up?
    ensures !Next(cfg, s, step).host.live.mem.dirty && !Next(cfg, s, step).host.live.turn.Appended?
  {
  }

  lemma MovesFlushed<S>(cfg: Config<S>, s: Sys<S>, step: Step, committed: bool)
    requires Moves(step) && Flushed(s, committed) && s.host.Up? && Next(cfg, s, step).host.Up?
    ensures Flushed(Next(cfg, s, step), committed)
  {
    MovesOnly(cfg, s, step);
    BaseOfSnaps(s.store, Next(cfg, s, step).store);
  }

  lemma HandleFlushed<S>(cfg: Config<S>, s: Sys<S>, step: Step, committed: bool)
    requires step.Handle? && Flushed(s, committed) && s.host.Up?
    ensures Flushed(Next(cfg, s, step), committed)
  {
    BaseOfSnaps(s.store, Next(cfg, s, step).store);
  }

  lemma FoldFlushed<S>(cfg: Config<S>, s: Sys<S>, committed: bool)
    requires Flushed(s, committed) && s.host.Up?
    ensures Flushed(Next(cfg, s, FoldBatch), committed || Folds(s, FoldBatch))
  {
  }

  /** Flushing a dirty host whose token is the stored one makes the whole log a snapshot. */
  lemma FlushReachesHead<S>(store: Store<S>, m: Mem<S>)
    requires store.fence.Some? && m.dirty && Passes(store, Some(m.token)) && m.currentSeq == |store.log|
    requires forall k :: k in store.snaps ==> 0 <= k <= |store.log|
    ensures Base(FlushStore(store, m)) == |store.log|
  {
    BaseAfterSave(store, |store.log|, m.state);
  }

  lemma FlushTurnFlushed<S>(cfg: Config<S>, s: Sys<S>, committed: bool)
    requires Shape(s) && Flushed(s, committed) && s.host.Up?
    requires committed ==> s.store.log != []
    ensures Flushed(Next(cfg, s, FlushTurn), committed)
  {
    if s.host.live.turn.Flushing? && s.host.live.mem.dirty && Passes(s.store, Some(s.host.live.mem.token)) {
      FlushReachesHead(s.store, s.host.live.mem);
    }
  }

  lemma NextFlushed<S>(cfg: Config<S>, s: Sys<S>, step: Step, committed: bool)
    requires Shape(s) && Flushed(s, committed) && s.host.Up? && Next(cfg, s, step).host.Up?
    requires committed ==> s.store.log != []
    ensures Flushed(Next(cfg, s, step), committed || Folds(s, step))
  {
    if Moves(step) {
      MovesFlushed(cfg, s, step, committed);
    } else if step.Handle? {
      HandleFlushed(cfg, s, step, committed);
    } else if step.FoldBatch? {
      FoldFlushed(cfg, s, committed);
    } else if step.FlushTurn? {
      FlushTurnFlushed(cfg, s, committed);
    }
  }

  lemma LogStays<S>(cfg: Config<S>, s: Sys<S>, step: Step)
    ensures |s.store.log| <= |Next(cfg, s, step).store.log|
  {
    if Moves(step) {
      MovesOnly(cfg, s, step);
    }
  }

  lemma {:induction false} RunFlushed<S>(cfg: Config<S>, steps: seq<Step>)
    ensures Flushed(Run(cfg, steps), HasCommitted(cfg, steps))
    ensures HasCommitted(cfg, steps) ==> Run(cfg, steps).store.log != []
  {
    if steps != [] {
      var before, last := steps[..|steps| - 1], steps[|steps| - 1];
      var s := Run(cfg, before);
      RunFlushed(cfg, before);
      RunShape(cfg, before);
      if Next(cfg, s, last).host.Up? {
        if s.host.Up? {
          NextFlushed(cfg, s, last, HasCommitted(cfg, before));
          LogStays(cfg, s, last);
        } else {
          OpenFlushed(cfg, s, last);
        }
      }
    }
  }

  /** What a deactivation may change: the host goes down, and at most one snapshot is written. */
  lemma DeactivateShape<S>(cfg: Config<S>, s: Sys<S>)
    requires s.host.Up? && s.host.live.turn.Exited?
    ensures var t := Next(cfg, s, Deactivate);
      t == s.(host := Down, store := s.store.(snaps := t.store.snaps))
  {
  }

  /**
   * Deactivation, in every run. With a token the row does not store, nothing is written. With the stored one,
   * a host that has committed since it opened leaves a snapshot at the head of the log, and the
   * next cold start has nothing to replay; a host that has not leaves the store as it was.
   */
  lemma DeactivationFlushes<S>(cfg: Config<S>, steps: seq<Step>)
    requires Run(cfg, steps).host.Up? && Run(cfg, steps).host.live.turn.Exited?
    ensures var s := Run(cfg, steps);
      var t := Next(cfg, s, Deactivate);
      && t == s.(host := Down, store := s.store.(snaps := t.store.snaps))
      && (s.host.live.mem.token != FenceOf(s.store) || !HasCommitted(cfg, steps) ==> t.store == s.store)
      && (s.host.live.mem.token == FenceOf(s.store) && HasCommitted(cfg, steps) ==>
            && Base(t.store) == |t.store.log| > 0 && |t.store.log| in t.store.snaps
            && Tail(t.store, Base(t.store) + 1) == []
            && ColdStart(cfg, t.store) == LoadMem(cfg, t.store))
  {
    var s := Run(cfg, steps);
    var t := Next(cfg, s, Deactivate);
    RunFlushed(cfg, steps);
    RunShape(cfg, steps);
    DeactivateShape(cfg, s);
    if s.host.live.mem.token == FenceOf(s.store) && HasCommitted(cfg, steps) {
      if s.host.live.mem.dirty {
        FlushReachesHead(s.store, s.host.live.mem);
      }
      BaseInRange(t.store);
    }
  }

  /** And that snapshot is the fold of the whole log, if the reducer agrees on stored payloads. */
  lemma DeactivationSaves<S(!new)>(cfg: Config<S>, steps: seq<Step>)
    requires Agrees(cfg.reduce, cfg.initial)
    requires Run(cfg, steps).host.Up? && Run(cfg, steps).host.live.turn.Exited?
    requires Run(cfg, steps).host.live.mem.token == FenceOf(Run(cfg, steps).store) && HasCommitted(cfg, steps)
    ensures var s := Run(cfg, steps);
      var t := Next(cfg, s, Deactivate);
      && |t.store.log| in t.store.snaps
      && t.store.snaps[|t.store.log|] == Replay(cfg.reduce, cfg.initial, t.store.log) == s.host.live.mem.state
      && ColdStart(cfg, t.store).state == s.host.live.mem.state
  {
    var more := steps + [Deactivate];
    assert more[..|steps|] == steps;
    DeactivationFlushes(cfg, steps);
    RunStates(cfg, more);
    RunStates(cfg, steps);
    RunShape(cfg, steps);
    var t := Run(cfg, more);
    assert t.store.log[..|t.store.log|] == t.store.log;
  }

  /** In particular a host whose one call committed one event leaves a snapshot at 1. */
  lemma OneCallIsSaved<S>(cfg: Config<S>, name: string, e: Value)
    requires cfg.capacity >= 1 && cfg.handles(name) && AllNormal([e]) && cfg.everyN > 1
    ensures var s := Run(cfg, OneCall(name, [e]) + [Settle] + [Close] + [Deactivate]);
      s.host.Down? && s.store.snaps == map[1 := cfg.reduce(cfg.initial, e)]
  {
    var s1 := OneCall(name, [e]);
    var s2 := s1 + [Settle];
    OneCallRuns(cfg, name, [e]);
    RunSnoc(cfg, s1, Settle);
    RunSnoc(cfg, s2, Close);
    RunSnoc(cfg, s2 + [Close], Deactivate);
    assert Fold(cfg.reduce, cfg.initial, [e]) == cfg.reduce(cfg.initial, e) by {
      assert [e][..0] == [] && Fold(cfg.reduce, cfg.initial, []) == cfg.initial;
    }
  }
}
