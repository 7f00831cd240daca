/** The hosts that subscribers see are the hosts of the machine. */
module SubscribedHost {
  import opened Events
  import opened Client
  import opened Memory
  import opened Registry
  import opened Subscribers
  import H = Host
  import St = Storage
  import D = Deactivation
  import R = Recovery

  /** The fold is the host machine's fold, in every run of it; a rejected ack leaves it folded. */
  lemma {:induction false} FoldIsHostFold<S>(cfg: Config<S>, steps: seq<H.Step>, serial: nat, past: seq<Value>,
                                             ids: set<SubId>)
    requires var s := H.Run(cfg, steps); s.host.Up? && s.host.live.turn.Appended?
    ensures var s := H.Run(cfg, steps);
      var view := Fold1(cfg, HostView(s.host.live.mem, Quiet, serial, past), s.host.live.turn.events, ids);
      var folded := H.Next(cfg, s, H.FoldBatch);
      && folded.host.Up? && folded.host.live.mem == view.mem
      && H.Next(cfg, folded, H.AckItem(false)).host.Up?
      && H.Next(cfg, folded, H.AckItem(false)).host.live.mem == view.mem
  {
    R.RunShape(cfg, steps);
  }

  /**
   * An evicted host's successor has its state and seq, as far as the reducer agrees on stored payloads; and
   * has them from a snapshot, if the host had committed and its token is the stored one.
   */
  lemma {:induction false} SuccessorHasState<S(!new)>(cfg: Config<S>, steps: seq<H.Step>)
    requires Agrees(cfg.reduce, cfg.initial)
    requires var s := H.Run(cfg, steps); s.host.Up? && s.host.live.turn.Exited?
    ensures var s := H.Run(cfg, steps);
      var t := H.Next(cfg, s, H.Deactivate);
      var cold := R.ColdStart(cfg, t.store);
      && t.host.Down? && t.store.log == s.store.log
      && cold.state == s.host.live.mem.state && cold.currentSeq == s.host.live.mem.currentSeq
      && (s.host.live.mem.token == St.FenceOf(s.store) && D.HasCommitted(cfg, steps) ==>
            cold.currentSeq in t.store.snaps && t.store.snaps[cold.currentSeq] == cold.state)
  {
    var s := H.Run(cfg, steps);
    var more := steps + [H.Deactivate];
    assert more[..|steps|] == steps;
    R.CrashRecovers(cfg, steps);
    R.CrashRecovers(cfg, more);
    D.DeactivationFlushes(cfg, steps);
    if s.host.live.mem.token == St.FenceOf(s.store) && D.HasCommitted(cfg, steps) {
      D.DeactivationSaves(cfg, steps);
    }
  }

  /** So what an eviction leaves for the next host is what a cold start reads, once the host has committed. */
  lemma EvictionIsColdStart<S(!new)>(cfg: Config<S>, steps: seq<H.Step>, maxPerActor: nat, w: World<S>, a: ActorId)
    requires Agrees(cfg.reduce, cfg.initial) && D.HasCommitted(cfg, steps)
    requires Enabled(cfg, maxPerActor, w, Evict(a))
    requires var s := H.Run(cfg, steps);
      && s.host.Up? && s.host.live.turn.Exited?
      && s.host.live.mem.token == St.FenceOf(s.store)
      && w.hosts[a].mem == s.host.live.mem
    ensures var t := H.Next(cfg, H.Run(cfg, steps), H.Deactivate);
      Next(cfg, maxPerActor, w, Evict(a)).hosts[a].mem == R.ColdStart(cfg, t.store)
  {
    SuccessorHasState(cfg, steps);
    D.DeactivationFlushes(cfg, steps);
  }
}
